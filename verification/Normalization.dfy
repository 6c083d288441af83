/** Recorded normalization edits, replayed from the last to the first (src/packages/ir/validator.py). */
module Normalization {
  import opened Wrappers
  import opened Documents

  /** Edits lie behind `previous` inside the text, in order and apart, each with rule and evidence. */
  predicate EditsInOrder(edits: seq<Edit>, previous: nat, length: nat) {
    edits == [] ||
      (previous <= edits[0].start <= edits[0].end <= length && edits[0].evidenced
        && EditsInOrder(edits[1..], edits[0].end, length))
  }

  function Replace(text: string, e: Edit): string
    requires 0 <= e.start <= e.end <= |text|
  {
    text[..e.start] + e.replacement + text[e.end..]
  }

  /** Edits applied from the last to the first: no edit moves the text an earlier one names. */
  function Replay(text: string, edits: seq<Edit>, previous: nat): (r: string)
    requires previous <= |text| && EditsInOrder(edits, previous, |text|)
    ensures previous <= |r| && r[..previous] == text[..previous]
  {
    if edits == [] then text
    else
      var behind := Replay(text, edits[1..], edits[0].end);
      assert behind[..edits[0].start] == text[..edits[0].start] by {
        assert behind[..edits[0].end][..edits[0].start] == behind[..edits[0].start];
        assert text[..edits[0].end][..edits[0].start] == text[..edits[0].start];
      }
      Replace(behind, edits[0])
  }

  /** Read from left to right: the text between the edits with every replacement in its place. */
  function Splice(text: string, edits: seq<Edit>, previous: nat): string
    requires previous <= |text| && EditsInOrder(edits, previous, |text|)
  {
    if edits == [] then text[previous..]
    else text[previous..edits[0].start] + edits[0].replacement + Splice(text, edits[1..], edits[0].end)
  }

  lemma {:induction false} ReplaceBehind(text: string, behind: string, e: Edit, previous: nat, rest: string)
    requires previous <= e.start <= e.end <= |text| && behind == text[..e.end] + rest
    ensures Replace(behind, e) == text[..previous] + (text[previous..e.start] + e.replacement + rest)
  {
    assert behind[e.end..] == rest && behind[..e.start] == text[..e.start];
    assert text[..e.start] == text[..previous] + text[previous..e.start];
  }

  /** Replaying backwards is splicing forwards. */
  lemma {:induction false} ReplayIsSplice(text: string, edits: seq<Edit>, previous: nat)
    requires previous <= |text| && EditsInOrder(edits, previous, |text|)
    ensures Replay(text, edits, previous) == text[..previous] + Splice(text, edits, previous)
  {
    if edits == [] {
      assert text == text[..previous] + text[previous..];
    } else {
      var e := edits[0];
      ReplayIsSplice(text, edits[1..], e.end);
      ReplaceBehind(text, Replay(text, edits[1..], e.end), e, previous, Splice(text, edits[1..], e.end));
    }
  }

  function Behind(edits: seq<Edit>, i: nat): nat
    requires i <= |edits|
  {
    if i == 0 || edits[i - 1].end < 0 then 0 else edits[i - 1].end
  }

  lemma {:induction false} OrderedSuffix(edits: seq<Edit>, previous: nat, length: nat, k: nat)
    requires 0 < k <= |edits| && previous <= length && EditsInOrder(edits, previous, length)
    ensures EditsInOrder(edits[k..], Behind(edits, k), length) && Behind(edits, k) == edits[k - 1].end <= length
  {
    if k > 1 {
      assert edits[1..][k - 1..] == edits[k..] && edits[1..][k - 2] == edits[k - 1];
      OrderedSuffix(edits[1..], edits[0].end, length, k - 1);
    }
  }

  /** The interval check and the backward rewriting; None is a rejected source. */
  method Reproduce(raw: string, edits: seq<Edit>) returns (r: Option<string>)
    ensures r.Some? <==> EditsInOrder(edits, 0, |raw|)
    ensures r.Some? ==> r.value == Splice(raw, edits, 0)
  {
    var previous: nat := 0;
    var i := 0;
    while i < |edits|
      invariant 0 <= i <= |edits| && previous <= |raw| && previous == (if i == 0 then 0 else edits[i - 1].end)
      invariant EditsInOrder(edits, 0, |raw|) <==> EditsInOrder(edits[i..], previous, |raw|)
    {
      if !(previous <= edits[i].start <= edits[i].end <= |raw|) { return None; }
      if !edits[i].evidenced { return None; }
      previous := edits[i].end;
      assert edits[i..][1..] == edits[i + 1..];
      i := i + 1;
    }
    var text := raw;
    i := |edits|;
    if i > 0 { OrderedSuffix(edits, 0, |raw|, i); }
    while i > 0
      invariant 0 <= i <= |edits|
      invariant EditsInOrder(edits[i..], Behind(edits, i), |raw|) && Behind(edits, i) <= |raw|
      invariant text == Replay(raw, edits[i..], Behind(edits, i))
    {
      i := i - 1;
      if i > 0 { OrderedSuffix(edits, 0, |raw|, i); } else { assert edits[0..] == edits; }
      assert edits[i..][1..] == edits[i + 1..];
      text := text[..edits[i].start] + edits[i].replacement + text[edits[i].end..];
    }
    assert edits[0..] == edits;
    ReplayIsSplice(raw, edits, 0);
    r := Some(text);
  }
}
