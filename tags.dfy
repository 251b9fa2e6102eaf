/** The tag field of the event form: free text split on commas, each piece
    trimmed, blank pieces dropped. The same pipeline runs twice, once for the
    live preview under the field and once for the record that is submitted. */
module Tags {
  import opened Text
  import Seqs

  /** What a stored tag looks like: non-empty, no whitespace at either end,
      no comma. */
  predicate IsTag(t: string) {
    t != "" && Trimmed(t) && ',' !in t
  }

  /** `.map((t) => t.trim())` */
  function TrimEach(pieces: seq<string>): (r: seq<string>)
    ensures |r| == |pieces|
  {
    seq(|pieces|, k requires 0 <= k < |pieces| => Trim(pieces[k]))
  }

  /** The test of the submit path, `(t) => t.length > 0`. */
  function HasLength(t: string): bool { |t| > 0 }

  /** The test of the preview, `(t) => t`: a string is truthy when non-empty. */
  function Truthy(t: string): bool { t != "" }

  /** The tags sent with a new event. */
  function ParseTags(input: string): (r: seq<string>)
    ensures forall k :: 0 <= k < |r| ==> r[k] != ""
    ensures |r| <= |Split(input, ',')|
  {
    Seqs.Filter(TrimEach(Split(input, ',')), HasLength)
  }

  /** Every submitted tag is non-empty, has no whitespace at either end and
      no comma, and there are never more tags than commas plus one. */
  lemma ParsedTagsAreTags(input: string)
    ensures forall t :: t in ParseTags(input) ==> IsTag(t)
    ensures |ParseTags(input)| <= multiset(input)[','] + 1
  {
    var pieces := Split(input, ',');
    var trimmed := TrimEach(pieces);
    TrimmedPiecesHaveNoComma(pieces);
    SplitLength(input, ',');
    forall t | t in ParseTags(input)
      ensures IsTag(t)
    {
      assert t in trimmed;
    }
  }

  lemma TrimmedPiecesHaveNoComma(pieces: seq<string>)
    requires forall k :: 0 <= k < |pieces| ==> ',' !in pieces[k]
    ensures forall t :: t in TrimEach(pieces) ==> Trimmed(t) && ',' !in t
  {
    forall t | t in TrimEach(pieces)
      ensures Trimmed(t) && ',' !in t
    {
      var k :| 0 <= k < |pieces| && TrimEach(pieces)[k] == t;
      TrimSubset(pieces[k], ',');
    }
  }

  /** The chips under the field while typing. The row is only rendered when
      `tagsInput.trim()` is non-empty, and its filter keeps the truthy pieces. */
  function PreviewTags(input: string): (r: seq<string>)
    ensures forall k :: 0 <= k < |r| ==> r[k] != ""
    ensures Trim(input) == "" ==> r == []
  {
    if Trim(input) == "" then [] else Seqs.Filter(TrimEach(Split(input, ',')), Truthy)
  }

  /** The preview shows exactly the tags that will be submitted. */
  lemma PreviewMatchesSubmitted(input: string)
    ensures PreviewTags(input) == ParseTags(input)
  {
    if Trim(input) == "" {
      BlankInputNoTags(input);
    } else {
      Seqs.FilterCongruent(TrimEach(Split(input, ',')), Truthy, HasLength);
    }
  }

  /** The submitted tags are the trimmed non-blank comma-separated pieces of
      the input in input order: they are a subsequence of the trimmed pieces,
      and every non-blank trimmed piece is among them as often as it occurs. */
  lemma ParseTagsOrder(input: string)
    ensures Seqs.IsSubsequence(ParseTags(input), TrimEach(Split(input, ',')))
    ensures forall t :: t != "" ==>
      multiset(ParseTags(input))[t] == multiset(TrimEach(Split(input, ',')))[t]
  {
    Seqs.FilterIsSubsequence(TrimEach(Split(input, ',')), HasLength);
    Seqs.FilterCounts(TrimEach(Split(input, ',')), HasLength);
  }

  /** Blank input gives no tags. */
  lemma BlankInputNoTags(input: string)
    requires Trim(input) == ""
    ensures ParseTags(input) == []
  {
    TrimEmptyIff(input);
    assert !IsWhitespace(',');
    SplitNone(input, ',');
    assert TrimEach([input]) == [""];
    Seqs.FilterNonePass([""], HasLength);
  }

  /** The tags with a space in front of each: how the tags after the first
      appear once the ", " separator is split on its comma. */
  function Padded(tags: seq<string>): (r: seq<string>)
    ensures |r| == |tags|
  {
    if tags == [] then [] else [" " + tags[0]] + Padded(tags[1..])
  }

  /** Splitting a space followed by tags joined with ", " gives each tag with
      its space. */
  lemma {:induction false} SplitPadded(tags: seq<string>)
    requires |tags| >= 1
    requires forall k :: 0 <= k < |tags| ==> ',' !in tags[k]
    ensures Split(" " + Join(tags, ", "), ',') == Padded(tags)
  {
    NoCommaPadded(tags[0]);
    if |tags| == 1 {
      SplitNone(" " + tags[0], ',');
    } else {
      SplitPadded(tags[1..]);
      JoinCons(" ", tags);
      SplitAfterComma(" " + tags[0], " " + Join(tags[1..], ", "));
    }
  }

  lemma NoCommaPadded(t: string)
    requires ',' !in t
    ensures ',' !in " " + t
  {
  }

  /** Tags joined with ", " are the first tag, a comma, then a space and the
      rest joined the same way. */
  lemma JoinCons(pad: string, tags: seq<string>)
    requires |tags| >= 2
    ensures pad + Join(tags, ", ") == (pad + tags[0]) + ([','] + (" " + Join(tags[1..], ", ")))
  {
    Regroup(pad, tags[0], ',', ' ', Join(tags[1..], ", "));
  }

  lemma Regroup(pad: string, t: string, c: char, d: char, rest: string)
    ensures pad + ((t + [c, d]) + rest) == (pad + t) + ([c] + ([d] + rest))
  {
    assert [c, d] == [c] + [d];
  }

  /** `head` followed by a comma and `rest` splits into `head` and the pieces
      of `rest`. */
  lemma SplitAfterComma(head: string, rest: string)
    requires ',' !in head
    ensures Split(head + ([','] + rest), ',') == [head] + Split(rest, ',')
  {
    assert head + ([','] + rest) == head + [','] + rest;
    SplitAtSeparator(head, rest, ',');
  }

  lemma {:induction false} PaddedAt(tags: seq<string>, k: nat)
    requires k < |tags|
    ensures Padded(tags)[k] == " " + tags[k]
  {
    if k > 0 { PaddedAt(tags[1..], k - 1); }
  }

  lemma TrimPaddedTag(t: string)
    requires IsTag(t)
    ensures Trim(" " + t) == t
  {
    TrimPadded(" ", t);
  }

  /** Tags joined by ", " split on the comma into the first tag and the
      others each behind a space. */
  lemma SplitDisplayed(tags: seq<string>)
    requires |tags| >= 1
    requires forall k :: 0 <= k < |tags| ==> ',' !in tags[k]
    ensures Split(Join(tags, ", "), ',') == [tags[0]] + Padded(tags[1..])
  {
    if |tags| == 1 {
      SplitNone(tags[0], ',');
    } else {
      SplitPadded(tags[1..]);
      JoinHead(tags);
      SplitAfterComma(tags[0], " " + Join(tags[1..], ", "));
    }
  }

  lemma JoinHead(tags: seq<string>)
    requires |tags| >= 2
    ensures Join(tags, ", ") == tags[0] + ([','] + (" " + Join(tags[1..], ", ")))
  {
    JoinCons("", tags);
    assert "" + Join(tags, ", ") == Join(tags, ", ");
    assert "" + tags[0] == tags[0];
  }

  /** Each piece of the displayed text trims back to its tag. */
  lemma TrimDisplayedPiece(tags: seq<string>, k: nat)
    requires k < |tags|
    requires forall i :: 0 <= i < |tags| ==> IsTag(tags[i])
    ensures Trim(([tags[0]] + Padded(tags[1..]))[k]) == tags[k]
  {
    if k == 0 {
      TrimPadded("", tags[0]);
      assert "" + tags[0] == tags[0];
    } else {
      PaddedAt(tags[1..], k - 1);
      assert tags[1..][k - 1] == tags[k];
      TrimPaddedTag(tags[k]);
    }
  }

  /** The pieces of tags joined by ", ", trimmed, are the tags. */
  lemma TrimmedPiecesOfDisplayed(tags: seq<string>)
    requires |tags| >= 1
    requires forall k :: 0 <= k < |tags| ==> IsTag(tags[k])
    ensures TrimEach(Split(Join(tags, ", "), ',')) == tags
  {
    SplitDisplayed(tags);
    forall k | 0 <= k < |tags|
      ensures TrimEach([tags[0]] + Padded(tags[1..]))[k] == tags[k]
    {
      TrimDisplayedPiece(tags, k);
    }
  }

  /** No tags display as the empty string, which parses to no tags. */
  lemma ParseDisplayedNoTags()
    ensures ParseTags(Join([], ", ")) == []
  {
    SplitNone("", ',');
    assert TrimEach([""]) == [""];
    Seqs.FilterNonePass([""], HasLength);
  }

  /** The admin list shows an event's tags joined by ", ". Parsing that text
      again gives back the same tags. */
  lemma ParseDisplayedTags(tags: seq<string>)
    requires forall k :: 0 <= k < |tags| ==> IsTag(tags[k])
    ensures ParseTags(Join(tags, ", ")) == tags
  {
    if tags == [] {
      ParseDisplayedNoTags();
    } else {
      TrimmedPiecesOfDisplayed(tags);
      Seqs.FilterAllPass(tags, HasLength);
    }
  }

  /** Two tags typed with the usual comma and space. */
  lemma ParseExample()
    ensures ParseTags("senderismo, naturaleza") == ["senderismo", "naturaleza"]
  {
    var tags := ["senderismo", "naturaleza"];
    assert Join(tags, ", ") == "senderismo, naturaleza";
    assert IsTag("senderismo");
    assert IsTag("naturaleza");
    ParseDisplayedTags(tags);
  }
}
