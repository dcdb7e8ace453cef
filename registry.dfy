/**
 * The registry of updateables: an ordered list of objects, compared by
 * identity, that the frame pass redraws the stage for and then updates one by
 * one. Entries may repeat; removal takes out the first identical entry only.
 */
module Registry {

  /** An object with a per-frame `update()`; only its identity matters to the registry. */
  class Updateable {
    constructor () {}
  }

  /** The position of the first entry identical to `x`, or -1 when there is none. */
  function IndexOf(s: seq<Updateable>, x: Updateable): (r: int)
    ensures -1 <= r < |s|
    ensures r == -1 <==> x !in s
    ensures 0 <= r ==> s[r] == x && x !in s[..r]
  {
    if s == [] then -1
    else if s[0] == x then 0
    else
      var k := IndexOf(s[1..], x);
      if k == -1 then -1
      else
        assert s[..k + 1] == [s[0]] + s[1..][..k];
        k + 1
  }

  /** The list after removing the first entry identical to `x`, if there is one. */
  function RemoveFirst(s: seq<Updateable>, x: Updateable): seq<Updateable> {
    var i := IndexOf(s, x);
    if i != -1 then s[..i] + s[i + 1..] else s
  }

  /**
   * Removing a present object deletes exactly its first occurrence: the
   * length drops by one, the entries before and after it keep their order,
   * and one copy of it leaves the multiset of entries.
   */
  lemma RemoveFirstPresent(s: seq<Updateable>, x: Updateable)
    requires x in s
    ensures |RemoveFirst(s, x)| == |s| - 1
    ensures exists i :: 0 <= i < |s| && s[i] == x && x !in s[..i] && RemoveFirst(s, x) == s[..i] + s[i + 1..]
    ensures multiset(RemoveFirst(s, x)) == multiset(s) - multiset{x}
  {
    var i := IndexOf(s, x);
    assert s == s[..i] + [x] + s[i + 1..];
    assert multiset(s) == multiset(s[..i]) + multiset{x} + multiset(s[i + 1..]);
  }

  /** Removing an absent object leaves the list as it was. */
  lemma RemoveFirstAbsent(s: seq<Updateable>, x: Updateable)
    requires x !in s
    ensures RemoveFirst(s, x) == s
  {
  }

  /**
   * Adding an object that was not registered and then removing it restores
   * the list; adding and removing any object restores the length and the
   * multiset of entries.
   */
  lemma AddThenRemove(s: seq<Updateable>, x: Updateable)
    ensures x !in s ==> RemoveFirst(s + [x], x) == s
    ensures |RemoveFirst(s + [x], x)| == |s|
    ensures multiset(RemoveFirst(s + [x], x)) == multiset(s)
  {
    RemoveFirstPresent(s + [x], x);
    if x !in s {
      assert IndexOf(s + [x], x) == |s|;
      assert (s + [x])[..|s|] == s;
    }
  }

  /** One call made during a frame pass. */
  datatype FrameCall = StageRedraw | EntryUpdate(entry: Updateable)

  /** The `update()` calls on the entries of `s`, in index order. */
  function EntryCalls(s: seq<Updateable>): (r: seq<FrameCall>)
    ensures |r| == |s|
    ensures forall i :: 0 <= i < |s| ==> r[i] == EntryUpdate(s[i])
  {
    if s == [] then [] else [EntryUpdate(s[0])] + EntryCalls(s[1..])
  }

  /** The calls of one frame pass over the registry `s`: the stage first, then every entry. */
  function FramePass(s: seq<Updateable>): seq<FrameCall> {
    [StageRedraw] + EntryCalls(s)
  }

  /** Each registered occurrence of an object gets exactly one `update()` call. */
  lemma {:induction false} EntryCallsCount(s: seq<Updateable>, x: Updateable)
    ensures multiset(EntryCalls(s))[EntryUpdate(x)] == multiset(s)[x]
    ensures multiset(EntryCalls(s))[StageRedraw] == 0
  {
    if s != [] {
      EntryCallsCount(s[1..], x);
      assert s == [s[0]] + s[1..];
      assert EntryCalls(s) == [EntryUpdate(s[0])] + EntryCalls(s[1..]);
    }
  }

  /**
   * A frame pass redraws the stage exactly once, before any entry, and then
   * updates every entry exactly once per occurrence, in index order.
   */
  lemma FramePassOrder(s: seq<Updateable>, x: Updateable)
    ensures |FramePass(s)| == |s| + 1
    ensures FramePass(s)[0] == StageRedraw
    ensures forall i :: 0 <= i < |s| ==> FramePass(s)[i + 1] == EntryUpdate(s[i])
    ensures multiset(FramePass(s))[StageRedraw] == 1
    ensures multiset(FramePass(s))[EntryUpdate(x)] == multiset(s)[x]
  {
    EntryCallsCount(s, x);
  }
}
