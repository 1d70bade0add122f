/**
 Jira's document format (`engine/adapters/ticket/jira.py`) and the acknowledgement that is posted once
 because of what survives it (`engine/nodes/triage.py`).
 */
module JiraAdf {
  import opened Options
  import opened Text

  // ---------------------------------------------------------------- documents

  /** A JSON value as the readers see it; an absent `text` is empty, an absent `content` the empty list. */
  datatype Node =
    | Str(s: string)
    | Many(items: seq<Node>)
    | Dict(kind: string, text: string, content: Node)
    | Other

  predicate EndsLine(kind: string) {
    kind in {"paragraph", "heading", "listItem", "blockquote", "codeBlock"}
  }

  /** `_adf_text`: the reader of ticket descriptions. */
  function AdfText(node: Node): string {
    match node
    case Str(s) => s
    case Many(items) => AdfTexts(items)
    case Other => ""
    case Dict(kind, text, content) =>
      if kind == "text" then text
      else if kind == "hardBreak" then "\n"
      else if EndsLine(kind) then AdfText(content) + "\n"
      else AdfText(content)
  }

  function AdfTexts(items: seq<Node>): string {
    if items == [] then "" else AdfText(items[0]) + AdfTexts(items[1..])
  }

  /** The reader of comments, which looks for a marker only. */
  function CommentText(node: Node): string {
    if node.Dict? then node.text + (if node.content.Many? then CommentTexts(node.content.items) else "") else ""
  }

  function CommentTexts(items: seq<Node>): string {
    if items == [] then "" else CommentText(items[0]) + CommentTexts(items[1..])
  }

  function Paragraph(line: string): Node {
    Dict("paragraph", "", Many(if line == "" then [] else [Dict("text", line, Many([]))]))
  }

  function Paragraphs(lines: seq<string>): seq<Node> {
    if lines == [] then [] else [Paragraph(lines[0])] + Paragraphs(lines[1..])
  }

  /** `_adf_document`: one paragraph a line. */
  function AdfDocument(text: string): Node {
    Dict("doc", "", Many(Paragraphs(Split('\n', text))))
  }

  // ---------------------------------------------------------------- what survives

  lemma Single(node: Node)
    ensures AdfTexts([node]) == AdfText(node) && CommentTexts([node]) == CommentText(node)
  {
    assert [node][1..] == [];
  }

  lemma ParagraphText(line: string)
    ensures AdfText(Paragraph(line)) == line + "\n" && CommentText(Paragraph(line)) == line
  {
    var content := Paragraph(line).content;
    assert AdfText(Paragraph(line)) == AdfText(content) + "\n";
    if line != "" {
      Single(Dict("text", line, Many([])));
      assert AdfText(content) == line;
    }
  }

  lemma {:induction false} ParagraphsText(lines: seq<string>)
    requires lines != []
    ensures AdfTexts(Paragraphs(lines)) == Join('\n', lines) + "\n"
  {
    ParagraphText(lines[0]);
    var rest := Paragraphs(lines[1..]);
    assert Paragraphs(lines)[1..] == rest;
    if |lines| > 1 { ParagraphsText(lines[1..]); }
  }

  /** Printing and reading gives every text back, with one newline more. */
  lemma DocumentRoundTrip(text: string)
    ensures AdfText(AdfDocument(text)) == text + "\n"
  {
    ParagraphsText(Split('\n', text));
  }

  /**
   How a block with a break inside is read: the break ends a line, and so does the block if it is a
   paragraph, a heading, a list item, a quotation or a piece of code; any other container ends none.
   */
  lemma BlockText(kind: string, first: string, second: string)
    requires kind != "text" && kind != "hardBreak"
    ensures var parts := [Dict("text", first, Other), Dict("hardBreak", "", Other), Dict("text", second, Other)];
            AdfText(Dict(kind, "", Many(parts))) ==
            first + "\n" + second +
            if kind == "paragraph" || kind == "heading" || kind == "listItem" || kind == "blockquote"
               || kind == "codeBlock" then "\n" else ""
  {
    var a, b, c := Dict("text", first, Other), Dict("hardBreak", "", Other), Dict("text", second, Other);
    assert [a, b, c][1..] == [b, c] && [b, c][1..] == [c];
    Single(c);
    assert AdfTexts([b, c]) == AdfText(b) + AdfTexts([c]) == "\n" + second;
    assert AdfTexts([a, b, c]) == AdfText(a) + AdfTexts([b, c]);
    assert AdfTexts([a, b, c]) == first + ("\n" + second);
    assert first + ("\n" + second) == first + "\n" + second;
  }

  function WithoutNewlines(s: string): string {
    if s == "" then "" else (if s[0] == '\n' then "" else [s[0]]) + WithoutNewlines(s[1..])
  }

  lemma {:induction false} WithoutNewlinesConcat(a: string, b: string)
    ensures WithoutNewlines(a + b) == WithoutNewlines(a) + WithoutNewlines(b)
  {
    if a == "" {
      assert a + b == b;
    } else {
      assert (a + b)[1..] == a[1..] + b;
      WithoutNewlinesConcat(a[1..], b);
    }
  }

  lemma {:induction false} NewlineFree(s: string)
    requires '\n' !in s
    ensures WithoutNewlines(s) == s
  {
    if s != "" { NewlineFree(s[1..]); }
  }

  lemma {:induction false} CommentsText(lines: seq<string>)
    requires forall i | 0 <= i < |lines| :: '\n' !in lines[i]
    ensures CommentTexts(Paragraphs(lines)) == WithoutNewlines(Join('\n', lines))
  {
    if lines != [] {
      var rest := lines[1..];
      ParagraphText(lines[0]);
      assert Paragraphs(lines)[1..] == Paragraphs(rest);
      CommentsText(rest);
      NewlineFree(lines[0]);
      if rest != [] { DroppedNewline(lines[0], Join('\n', rest)); }
    }
  }

  lemma {:induction false} DroppedNewline(a: string, b: string)
    ensures WithoutNewlines(a + ['\n'] + b) == WithoutNewlines(a) + WithoutNewlines(b)
  {
    var s := a + ['\n'] + b;
    if a == "" {
      assert s[1..] == b;
    } else {
      assert s[1..] == a[1..] + ['\n'] + b;
      DroppedNewline(a[1..], b);
    }
  }

  /** The comment reader sees the text printed, without its newlines. */
  lemma CommentSeesTheText(text: string)
    ensures CommentText(AdfDocument(text)) == WithoutNewlines(text)
  {
    CommentsText(Split('\n', text));
  }

  lemma PartSurvives(s: string, part: string)
    requires '\n' !in part && Contains(s, part)
    ensures Contains(WithoutNewlines(s), part)
  {
    var i :| 0 <= i <= |s| && StartsWith(s[i..], part);
    var a, b := s[..i], s[i..][|part|..];
    assert s == a + part + b;
    WithoutNewlinesConcat(a + part, b);
    WithoutNewlinesConcat(a, part);
    NewlineFree(part);
    InTheMiddle(WithoutNewlines(a), part, WithoutNewlines(b));
  }

  lemma InTheMiddle(a: string, part: string, b: string)
    ensures Contains(a + part + b, part)
  {
    var t := a + part + b;
    assert t[|a|..][..|part|] == part;
    assert StartsWith(t[|a|..], part);
  }

  /** A marker without newlines that was written in a comment is found by reading the comment back. */
  lemma MarkerIsFound(text: string, marker: string)
    requires '\n' !in marker && Contains(text, marker)
    ensures Contains(CommentText(AdfDocument(text)), marker)
  {
    CommentSeesTheText(text);
    PartSurvives(text, marker);
  }

  // ---------------------------------------------------------------- the acknowledgement

  /** The marker ends the comment, on a line of its own. */
  function Acknowledgement(intro: string, marker: string): string {
    intro + "\n\n" + marker
  }

  lemma AcknowledgementIsMarked(intro: string, marker: string)
    requires '\n' !in marker
    ensures Marked(AdfDocument(Acknowledgement(intro, marker)), marker)
  {
    var text, n := Acknowledgement(intro, marker), |intro| + 2;
    assert text[n..] == marker && marker[..|marker|] == marker;
    MarkerIsFound(text, marker);
  }

  ghost predicate Marked(comment: Node, marker: string) {
    Contains(CommentText(comment), marker)
  }

  ghost predicate AnyMarked(comments: seq<Node>, marker: string) {
    exists c | c in comments :: Marked(c, marker)
  }

  ghost function CountMarked(comments: seq<Node>, marker: string): nat {
    if comments == [] then 0
    else CountMarked(comments[..|comments| - 1], marker) + if Marked(comments[|comments| - 1], marker) then 1 else 0
  }

  /** How an attempt meets the platform; a comment whose reply is lost is on the ticket all the same. */
  datatype Attempt = ReadFails | PostRefused | PostArrives(replyLost: bool)

  /**
   The ticket while one run's triage is tried again and again, each time on its own; others may comment in
   between. Nothing an attempt meets makes it fail.
   */
  class Ticket {
    const marker: string
    const intro: string

    var comments: seq<Node>

    /** The comments the attempts have put on the ticket. */
    ghost var ours: seq<Node>

    constructor (marker: string, intro: string, comments: seq<Node>)
      requires '\n' !in marker
      ensures Valid() && this.marker == marker && this.intro == intro && this.comments == comments && ours == []
    {
      this.marker, this.intro, this.comments := marker, intro, comments;
      ours := [];
    }

    /** At most one comment is ours, and once one is, a reader finds the marker. */
    ghost predicate Valid()
      reads this
    {
      && '\n' !in marker
      && |ours| <= 1
      && (ours != [] ==> AnyMarked(comments, marker))
    }

    /** `_acknowledge`. */
    method Acknowledge(attempt: Attempt)
      requires Valid()
      modifies this`comments, this`ours
      ensures Valid()
      ensures var posts := attempt.PostArrives? && !AnyMarked(old(comments), marker);
              && comments == old(comments) + (if posts then [AdfDocument(Acknowledgement(intro, marker))] else [])
              && ours == if posts then [AdfDocument(Acknowledgement(intro, marker))] else old(ours)
      ensures CountMarked(comments, marker) ==
              if attempt.PostArrives? && CountMarked(old(comments), marker) == 0 then 1
              else CountMarked(old(comments), marker)
    {
      NoneMarked(comments, marker);
      if attempt.ReadFails? { return; }
      var found := Mentioned();
      if found || attempt.PostRefused? { return; }
      Post();
    }

    /** The comment arrives, whether or not the reply does. */
    method Post()
      requires '\n' !in marker
      modifies this`comments, this`ours
      ensures comments == old(comments) + [AdfDocument(Acknowledgement(intro, marker))]
      ensures ours == [AdfDocument(Acknowledgement(intro, marker))]
      ensures CountMarked(comments, marker) == CountMarked(old(comments), marker) + 1 && AnyMarked(comments, marker)
    {
      var comment := AdfDocument(Acknowledgement(intro, marker));
      AcknowledgementIsMarked(intro, marker);
      OneMoreComment(comments, comment, marker);
      comments, ours := comments + [comment], [comment];
    }

    /** `any(marker in body for body in ...)`. */
    method Mentioned() returns (found: bool)
      ensures found <==> AnyMarked(comments, marker)
    {
      for i := 0 to |comments|
        invariant forall j | 0 <= j < i :: !Marked(comments[j], marker)
      {
        found := Within(CommentText(comments[i]), marker);
        if found {
          assert Marked(comments[i], marker);
          return true;
        }
      }
      found := false;
    }

    /** Somebody else comments on the ticket. */
    method SomeoneComments(comment: Node)
      requires Valid()
      modifies this`comments
      ensures Valid() && comments == old(comments) + [comment]
    {
      comments := comments + [comment];
    }
  }

  /** `marker in body`. */
  function Within(s: string, part: string): (b: bool)
    ensures b <==> Contains(s, part)
  {
    if StartsWith(s, part) then
      assert s[0..] == s;
      true
    else if s == "" then false
    else
      var b := Within(s[1..], part);
      assert forall i | 1 <= i <= |s| :: s[i..] == s[1..][i - 1..];
      b
  }

  lemma OneMoreComment(comments: seq<Node>, comment: Node, marker: string)
    requires Marked(comment, marker)
    ensures CountMarked(comments + [comment], marker) == CountMarked(comments, marker) + 1
    ensures AnyMarked(comments + [comment], marker)
  {
    assert (comments + [comment])[..|comments|] == comments;
    assert comment in comments + [comment];
  }

  lemma {:induction false} NoneMarked(comments: seq<Node>, marker: string)
    ensures CountMarked(comments, marker) == 0 <==> !AnyMarked(comments, marker)
  {
    if comments != [] {
      NoneMarked(comments[..|comments| - 1], marker);
      assert comments == comments[..|comments| - 1] + [comments[|comments| - 1]];
    }
  }
}
