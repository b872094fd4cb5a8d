/** A percussion note: the attack is a note no longer than a maximum and the
    remaining time is filled with rests, so no tied notes are needed. */
module MakePercussionNote {
  import opened Common

  datatype Leaf = Note(pitch: int, duration: real) | Rest(duration: real)

  /** The tied-leaf constructors split a positive duration into positive
      assignable pieces that add up to it; which pieces they choose is not
      part of this model. */
  ghost predicate ValidSplit(split: real -> seq<real>)
  {
    forall x :: x > 0.0 ==>
      |split(x)| >= 1 && Sum(split(x)) == x && forall i :: 0 <= i < |split(x)| ==> split(x)[i] > 0.0
  }

  function Notes(pitch: int, ds: seq<real>): (r: seq<Leaf>)
    ensures |r| == |ds|
    ensures forall i :: 0 <= i < |ds| ==> r[i] == Note(pitch, ds[i])
  {
    seq(|ds|, i requires 0 <= i < |ds| => Note(pitch, ds[i]))
  }

  function Rests(ds: seq<real>): (r: seq<Leaf>)
    ensures |r| == |ds|
    ensures forall i :: 0 <= i < |ds| ==> r[i] == Rest(ds[i])
  {
    seq(|ds|, i requires 0 <= i < |ds| => Rest(ds[i]))
  }

  /** The tied leaf with every piece after the first turned into a rest. */
  function NoteThenRests(pitch: int, ds: seq<real>): (r: seq<Leaf>)
    requires |ds| >= 1
    ensures |r| == |ds|
  {
    [Note(pitch, ds[0])] + Rests(ds[1..])
  }

  /** What `make_percussion_note` returns. */
  function PercussionNote(pitch: int, total: real, maxNote: real, split: real -> seq<real>): seq<Leaf>
    requires ValidSplit(split) && total > 0.0 && maxNote > 0.0
  {
    if maxNote < total then Notes(pitch, split(maxNote)) + Rests(split(total - maxNote))
    else NoteThenRests(pitch, split(total))
  }

  function Durations(leaves: seq<Leaf>): (r: seq<real>)
    ensures |r| == |leaves|
    ensures forall i :: 0 <= i < |leaves| ==> r[i] == leaves[i].duration
  {
    seq(|leaves|, i requires 0 <= i < |leaves| => leaves[i].duration)
  }

  method MakePercussionNote(pitch: int, total: real, maxNote: real, split: real -> seq<real>)
    returns (leaves: seq<Leaf>)
    requires ValidSplit(split) && total > 0.0 && maxNote > 0.0
    ensures leaves == PercussionNote(pitch, total, maxNote, split)
  {
    if maxNote < total {
      var r := Rests(split(total - maxNote));
      var n := Notes(pitch, split(maxNote));
      leaves := n + r;
    } else {
      var ds := split(total);
      var n := Notes(pitch, ds);
      if 1 < |n| {
        var i := 1;
        while i < |n|
          invariant 1 <= i <= |n| && |n| == |ds|
          invariant n[0] == Note(pitch, ds[0])
          invariant forall j :: 1 <= j < i ==> n[j] == Rest(ds[j])
          invariant forall j :: i <= j < |n| ==> n[j] == Note(pitch, ds[j])
        {
          n := n[i := Rest(n[i].duration)];
          i := i + 1;
        }
      }
      assert forall j :: 1 <= j < |n| ==> n[j] == Rests(ds[1..])[j - 1];
      leaves := n;
    }
  }

  lemma DurationsAppend(a: seq<Leaf>, b: seq<Leaf>)
    ensures Durations(a + b) == Durations(a) + Durations(b)
  {
  }

  /** The durations of the returned leaves add up to the total duration. */
  lemma PercussionNoteSum(pitch: int, total: real, maxNote: real, split: real -> seq<real>)
    requires ValidSplit(split) && total > 0.0 && maxNote > 0.0
    ensures Sum(Durations(PercussionNote(pitch, total, maxNote, split))) == total
  {
    if maxNote < total {
      var ns, rs := split(maxNote), split(total - maxNote);
      DurationsAppend(Notes(pitch, ns), Rests(rs));
      assert Durations(Notes(pitch, ns)) == ns;
      assert Durations(Rests(rs)) == rs;
      SumAppend(ns, rs);
    } else {
      var ds := split(total);
      DurationsAppend([Note(pitch, ds[0])], Rests(ds[1..]));
      assert Durations(NoteThenRests(pitch, ds)) == ds;
    }
  }

  /** Notes come first, then rests, and there is at least one note; the
      notes last no longer than the maximum note duration altogether, and the
      rests fill the rest of the total. */
  lemma PercussionNoteShape(pitch: int, total: real, maxNote: real, split: real -> seq<real>)
    returns (k: nat)
    requires ValidSplit(split) && total > 0.0 && maxNote > 0.0
    ensures var r := PercussionNote(pitch, total, maxNote, split);
      && 1 <= k <= |r|
      && (forall i :: 0 <= i < k ==> r[i].Note? && r[i].pitch == pitch)
      && (forall i :: k <= i < |r| ==> r[i].Rest?)
      && Sum(Durations(r[..k])) <= maxNote
      && Sum(Durations(r[k..])) == total - Sum(Durations(r[..k]))
  {
    if maxNote < total {
      k := ShapeWhenSplit(pitch, total, maxNote, split);
    } else {
      k := ShapeWhenShort(pitch, total, maxNote, split);
    }
  }

  lemma ShapeWhenSplit(pitch: int, total: real, maxNote: real, split: real -> seq<real>)
    returns (k: nat)
    requires ValidSplit(split) && maxNote > 0.0 && maxNote < total
    ensures var r := PercussionNote(pitch, total, maxNote, split);
      && 1 <= k <= |r|
      && (forall i :: 0 <= i < k ==> r[i].Note? && r[i].pitch == pitch)
      && (forall i :: k <= i < |r| ==> r[i].Rest?)
      && Sum(Durations(r[..k])) <= maxNote
      && Sum(Durations(r[k..])) == total - Sum(Durations(r[..k]))
  {
    var r := PercussionNote(pitch, total, maxNote, split);
    var ns, rs := split(maxNote), split(total - maxNote);
    k := |ns|;
    assert r[..k] == Notes(pitch, ns);
    assert r[k..] == Rests(rs);
    assert Durations(Notes(pitch, ns)) == ns;
    assert Durations(Rests(rs)) == rs;
  }

  lemma ShapeWhenShort(pitch: int, total: real, maxNote: real, split: real -> seq<real>)
    returns (k: nat)
    requires ValidSplit(split) && total > 0.0 && total <= maxNote
    ensures var r := PercussionNote(pitch, total, maxNote, split);
      && 1 <= k <= |r|
      && (forall i :: 0 <= i < k ==> r[i].Note? && r[i].pitch == pitch)
      && (forall i :: k <= i < |r| ==> r[i].Rest?)
      && Sum(Durations(r[..k])) <= maxNote
      && Sum(Durations(r[k..])) == total - Sum(Durations(r[..k]))
  {
    var r := PercussionNote(pitch, total, maxNote, split);
    var ds := split(total);
    k := 1;
    assert r[..1] == [Note(pitch, ds[0])];
    assert Durations(r[..1]) == [ds[0]];
    SumSingle(ds[0]);
    assert r[1..] == Rests(ds[1..]);
    assert Durations(Rests(ds[1..])) == ds[1..];
    assert ds == [ds[0]] + ds[1..];
    SumAppend([ds[0]], ds[1..]);
    SumOfPositivesBoundsEach(ds, 0);
  }

  /** Each of positive parts is at most their sum. */
  lemma {:induction false} SumOfPositivesBoundsEach(s: seq<real>, i: nat)
    requires i < |s| && forall j :: 0 <= j < |s| ==> s[j] > 0.0
    ensures s[i] <= Sum(s)
    decreases |s|
  {
    var p := s[..|s| - 1];
    SumPositive(p);
    if i < |s| - 1 {
      SumOfPositivesBoundsEach(p, i);
    }
  }

  /** `make_percussion_note(2, (5, 64), (1, 8))`: given that `5/64` splits
      into `1/16` and `1/64`, a sixteenth note and a sixty-fourth rest. */
  lemma DocExampleFiveSixtyFourths(split: real -> seq<real>)
    requires ValidSplit(split) && split(5.0 / 64.0) == [1.0 / 16.0, 1.0 / 64.0]
    ensures PercussionNote(2, 5.0 / 64.0, 1.0 / 8.0, split) == [Note(2, 1.0 / 16.0), Rest(1.0 / 64.0)]
  {
  }

  /** `make_percussion_note(2, (5, 4), (1, 8))`: an eighth note, then `9/8`
      of rests split into a whole and an eighth. */
  lemma DocExampleFiveQuarters(split: real -> seq<real>)
    requires ValidSplit(split) && split(1.0 / 8.0) == [1.0 / 8.0] && split(9.0 / 8.0) == [1.0, 1.0 / 8.0]
    ensures PercussionNote(2, 5.0 / 4.0, 1.0 / 8.0, split) == [Note(2, 1.0 / 8.0), Rest(1.0), Rest(1.0 / 8.0)]
  {
    assert 5.0 / 4.0 - 1.0 / 8.0 == 9.0 / 8.0;
  }
}
