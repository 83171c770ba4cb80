/** Post-processing of language-model replies in the backend canister:
    `clean_llm_response` and the bullet stripping of `explain_contract`'s key points. */
module LlmText {
  import opened Strings

  /** A line that `clean_llm_response` treats as preamble while no content line
      has been seen yet. */
  predicate IsPreambleLine(line: string) {
    || line == []
    || Contains(line, "Here's")
    || Contains(line, "Below is")
    || Contains(line, "```")
    || Contains(line, "**")
    || StartsWith(line, "#")
  }

  /** How many leading lines `skip_while` drops: all of them are preamble, and
      the line after them (when there is one) is not. */
  function PreambleLength(lines: seq<string>): (k: nat)
    ensures k <= |lines|
    ensures forall j :: 0 <= j < k ==> IsPreambleLine(lines[j])
    ensures k < |lines| ==> !IsPreambleLine(lines[k])
    decreases |lines|
  {
    if lines != [] && IsPreambleLine(lines[0]) then 1 + PreambleLength(lines[1..]) else 0
  }

  /** `clean_llm_response`: drop the preamble lines, keep every line from the
      first content line on, join them with "\n" and trim. */
  function CleanLlmResponse(text: string): (r: string)
    ensures IsTrimmed(r)
    ensures (forall j :: 0 <= j < |Lines(text)| ==> IsPreambleLine(Lines(text)[j])) ==> r == []
  {
    var lines := Lines(text);
    Trim(JoinWith(lines[PreambleLength(lines)..], "\n"))
  }

  /** Whatever the preamble was, the result is the trimmed join of everything
      from the first content line on. */
  lemma {:induction false} CleanKeepsFromFirstContentLine(text: string, preamble: seq<string>, rest: seq<string>)
    requires Lines(text) == preamble + rest
    requires forall j :: 0 <= j < |preamble| ==> IsPreambleLine(preamble[j])
    requires rest != [] && !IsPreambleLine(rest[0])
    ensures CleanLlmResponse(text) == Trim(JoinWith(rest, "\n"))
  {
    var lines := Lines(text);
    var k := PreambleLength(lines);
    assert forall j :: 0 <= j < |preamble| ==> lines[j] == preamble[j];
    assert lines[|preamble|] == rest[0];
    assert k == |preamble|;
    assert lines[k..] == rest;
  }

  /** The characters `explain_contract` strips from the start of a key-point line. */
  const BULLET_MARKS: set<char> := {'-', '*', '\U{2022}', ' '}

  function StripBullet(line: string): (point: string)
    ensures IsTrimmed(point) && |point| <= |line|
  {
    Trim(TrimStartMatches(line, BULLET_MARKS))
  }

  /** The key points of `explain_contract`: one per non-empty line of the
      cleaned reply, with its bullet marks and surrounding white space removed. */
  function KeyPoints(text: string): (points: seq<string>)
    ensures |points| == |NonEmpty(Lines(text))|
    ensures forall i :: 0 <= i < |points| ==>
              IsTrimmed(points[i]) && |points[i]| <= |NonEmpty(Lines(text))[i]|
    ensures forall i :: 0 <= i < |points| ==> points[i] == StripBullet(NonEmpty(Lines(text))[i])
  {
    var lines := NonEmpty(Lines(text));
    seq(|lines|, i requires 0 <= i < |lines| => StripBullet(lines[i]))
  }

  /** A line made of bullet marks followed by an item yields exactly that item,
      provided the item itself is trimmed and does not begin with a mark. */
  lemma StripBulletOfMarkedItem(marks: string, item: string)
    requires forall i :: 0 <= i < |marks| ==> marks[i] in BULLET_MARKS
    requires IsTrimmed(item) && (item == [] || item[0] !in BULLET_MARKS)
    ensures StripBullet(marks + item) == item
  {
    MarksAreStripped(marks, item);
    assert TrimStartMatches(item, BULLET_MARKS) == item;
    TrimmedIsFixpoint(item);
  }

  lemma {:induction false} MarksAreStripped(marks: string, item: string)
    requires forall i :: 0 <= i < |marks| ==> marks[i] in BULLET_MARKS
    ensures TrimStartMatches(marks + item, BULLET_MARKS) == TrimStartMatches(item, BULLET_MARKS)
    decreases |marks|
  {
    if marks == [] {
      assert marks + item == item;
    } else {
      assert (marks + item)[1..] == marks[1..] + item;
      MarksAreStripped(marks[1..], item);
    }
  }
}
