/**
  Adding the video description to the note's text: a scan over the lines for the `---`
  that closes a frontmatter block opened on the first line, and the splice of a fixed
  section right after it (or in front of everything when there is no such block).
 */
module Description {
  import opened Text

  /** `## Video Description\n\n${videoDescription}\n\n---\n\n` */
  function Block(description: string): string {
    "## Video Description\n\n" + description + "\n\n---\n\n"
  }

  /** A line that is `---` once trimmed. */
  predicate IsMarker(line: string) {
    Trim(line) == "---"
  }

  /** The first marker line at index `j` or later. */
  function FirstMarkerFrom(lines: seq<string>, j: nat): (r: Option<nat>)
    requires j <= |lines|
    ensures r.Some? ==> j <= r.value < |lines|
    decreases |lines| - j
  {
    if j == |lines| then None
    else if IsMarker(lines[j]) then Some(j)
    else FirstMarkerFrom(lines, j + 1)
  }

  /** It is a marker with no marker before it. */
  lemma {:induction false} FirstMarkerFromIsFirst(lines: seq<string>, j: nat)
    requires j <= |lines|
    requires FirstMarkerFrom(lines, j).Some?
    ensures IsMarker(lines[FirstMarkerFrom(lines, j).value])
    ensures forall k :: j <= k < FirstMarkerFrom(lines, j).value ==> !IsMarker(lines[k])
    decreases |lines| - j
  {
    if !IsMarker(lines[j]) {
      FirstMarkerFromIsFirst(lines, j + 1);
    }
  }

  /** There is none when no line from `j` on is a marker. */
  lemma {:induction false} FirstMarkerFromNone(lines: seq<string>, j: nat)
    requires j <= |lines|
    requires FirstMarkerFrom(lines, j).None?
    ensures forall k :: j <= k < |lines| ==> !IsMarker(lines[k])
    decreases |lines| - j
  {
    if j < |lines| {
      FirstMarkerFromNone(lines, j + 1);
    }
  }

  /** The closing line of a frontmatter block: the first marker after a first line that
      is itself a marker. */
  function ClosingLine(lines: seq<string>): (r: Option<nat>)
    ensures r.Some? ==> 0 < r.value < |lines|
  {
    if |lines| > 0 && IsMarker(lines[0]) then FirstMarkerFrom(lines, 1) else None
  }

  /** The closing line is a marker, the first line is one, no line between them is, and
      there is no closing line exactly when one of these cannot be met. */
  lemma ClosingLineIsClosing(lines: seq<string>)
    ensures var r := ClosingLine(lines);
            && (r.Some? ==> IsMarker(lines[0]) && IsMarker(lines[r.value]))
            && (r.Some? ==> forall k :: 0 < k < r.value ==> !IsMarker(lines[k]))
            && (r.None? <==> |lines| == 0 || !IsMarker(lines[0])
                             || forall k :: 0 < k < |lines| ==> !IsMarker(lines[k]))
  {
    if |lines| > 0 {
      if FirstMarkerFrom(lines, 1).Some? {
        FirstMarkerFromIsFirst(lines, 1);
      } else {
        FirstMarkerFromNone(lines, 1);
      }
    }
  }

  /** `lines.slice(0, j + 1).join('\n') + '\n' + block + lines.slice(j + 1).join('\n')` */
  function Splice(lines: seq<string>, j: nat, block: string): string
    requires j < |lines|
  {
    Join(lines[..j + 1], '\n') + "\n" + block + Join(lines[j + 1..], '\n')
  }

  /** The text the editor receives. */
  function InsertedContent(content: string, description: string): string {
    var lines := Split(content, '\n');
    match ClosingLine(lines)
    case None => Block(description) + content
    case Some(j) => Splice(lines, j, Block(description))
  }

  /** The loop of the command: it records that the first line opens a block and stops
      at the first marker after it. */
  method InsertDescription(content: string, description: string) returns (newContent: string)
    ensures newContent == InsertedContent(content, description)
  {
    var descriptionContent := Block(description);
    newContent := descriptionContent + content;
    var lines := Split(content, '\n');
    var frontmatterEndLine := -1;
    var frontmatterStartFound := false;
    var i := 0;
    while i < |lines|
      invariant 0 <= i <= |lines|
      invariant frontmatterStartFound <==> i > 0 && IsMarker(lines[0])
      invariant frontmatterEndLine == -1
      invariant frontmatterStartFound ==> forall k :: 0 < k < i ==> !IsMarker(lines[k])
      decreases |lines| - i
    {
      var line := Trim(lines[i]);
      if i == 0 && line == "---" {
        frontmatterStartFound := true;
      } else if frontmatterStartFound && line == "---" {
        frontmatterEndLine := i;
        ClosingLineIsFirst(lines, i);
        break;
      }
      i := i + 1;
    }
    ClosingLineIsClosing(lines);
    if frontmatterEndLine != -1 {
      var frontmatterSection := Join(lines[..frontmatterEndLine + 1], '\n') + "\n";
      var contentAfterFrontmatter := Join(lines[frontmatterEndLine + 1..], '\n');
      newContent := frontmatterSection + descriptionContent + contentAfterFrontmatter;
      assert newContent == Splice(lines, frontmatterEndLine, descriptionContent);
    } else {
      newContent := descriptionContent + content;
    }
  }

  /** Without a frontmatter block the section goes in front of the text. */
  lemma InsertWithoutFrontmatter(content: string, description: string)
    requires var lines := Split(content, '\n');
             !IsMarker(lines[0]) || forall k :: 0 < k < |lines| ==> !IsMarker(lines[k])
    ensures InsertedContent(content, description) == Block(description) + content
  {
    ClosingLineIsClosing(Split(content, '\n'));
  }

  /** With one, the text up to the closing line and its newline comes first, then the
      section, then the rest of the text unchanged: removing the section gives the text
      back. */
  lemma InsertAfterClosingLine(content: string, description: string, j: nat)
    requires ClosingLine(Split(content, '\n')) == Some(j)
    requires j + 1 < |Split(content, '\n')|
    ensures var head := Join(Split(content, '\n')[..j + 1], '\n') + "\n";
            && |head| <= |content| && content[..|head|] == head
            && InsertedContent(content, description) == head + Block(description) + content[|head|..]
  {
    var lines := Split(content, '\n');
    var a, b := lines[..j + 1], lines[j + 1..];
    assert lines == a + b;
    JoinAppend(a, b, '\n');
    JoinSplit(content, '\n');
    var head := Join(a, '\n') + "\n";
    assert content == head + Join(b, '\n');
    assert content[..|head|] == head && content[|head|..] == Join(b, '\n');
  }

  /** When the closing line is the last line, the section is appended after a newline. */
  lemma InsertAfterLastLine(content: string, description: string, j: nat)
    requires ClosingLine(Split(content, '\n')) == Some(j)
    requires j + 1 == |Split(content, '\n')|
    ensures InsertedContent(content, description) == content + "\n" + Block(description)
  {
    var lines := Split(content, '\n');
    assert lines[..j + 1] == lines;
    assert lines[j + 1..] == [];
    JoinSplit(content, '\n');
  }

  /** The closing line is the first `---` after an opening `---` first line. */
  lemma ClosingLineIsFirst(lines: seq<string>, j: nat)
    requires 0 < j < |lines|
    requires IsMarker(lines[0]) && IsMarker(lines[j])
    requires forall k :: 0 < k < j ==> !IsMarker(lines[k])
    ensures ClosingLine(lines) == Some(j)
  {
    ClosingLineIsClosing(lines);
  }
}
