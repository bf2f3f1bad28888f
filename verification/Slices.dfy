// Go slices of pods: a length over a backing array that other slices may share.
module Slices {
  import opened Entities
  import opened ModelSpec

  /** Every slice here starts at the front of its array; the array's length is the slice's capacity. */
  datatype Slice = Slice(arr: array<Pod?>, len: nat) {
    ghost predicate Valid()
      reads arr
    {
      len <= arr.Length && forall i :: 0 <= i < len ==> arr[i] != null
    }

    function Contents(): (s: seq<Pod>)
      requires Valid()
      reads arr
      ensures |s| == len
    {
      arr[..len]
    }
  }

  /** A nil slice. */
  method Empty() returns (s: Slice)
    ensures fresh(s.arr) && s.Valid() && s.Contents() == []
  {
    var arr := new Pod?[0];
    s := Slice(arr, 0);
  }

  /** Go's append of one element: in place if there is room, else into a larger new array. */
  method Append(s: Slice, p: Pod) returns (r: Slice)
    requires s.Valid()
    modifies s.arr
    ensures r.Valid() && r.Contents() == old(s.Contents()) + [p]
    ensures r.arr == s.arr || fresh(r.arr)
    ensures s.len < s.arr.Length ==> r.arr == s.arr
    ensures s.arr[..s.len] == old(s.arr[..s.len])
  {
    var arr := s.arr;
    if s.len == arr.Length {
      var capacity: nat :| capacity > s.len;
      arr := new Pod?[capacity];
      for i := 0 to s.len
        invariant arr[..i] == s.arr[..i] && s.arr[..] == old(s.arr[..])
      {
        arr[i] := s.arr[i];
      }
    }
    arr[s.len] := p;
    r := Slice(arr, s.len + 1);
  }

  /** append(s, t...) */
  method AppendAll(s: Slice, t: Slice) returns (r: Slice)
    requires s.Valid() && t.Valid() && s.arr != t.arr
    modifies s.arr
    ensures r.Valid() && r.Contents() == old(s.Contents()) + old(t.Contents())
    ensures r.arr == s.arr || fresh(r.arr)
  {
    r := s;
    for i := 0 to t.len
      invariant r.Valid() && (r.arr == s.arr || fresh(r.arr)) && r.arr != t.arr
      invariant r.Contents() == old(s.Contents()) + old(t.Contents())[..i]
      invariant t.Valid() && t.Contents() == old(t.Contents())
    {
      r := Append(r, t.arr[i]);
    }
  }

  /**
   * The array after deleting position i of a live slice: the tail moves down and the last live element is left behind.
   */
  function Shifted<T>(now: seq<T>, i: nat, live: nat): (r: seq<T>)
    requires i < live <= |now|
    ensures |r| == |now|
    ensures forall k :: 0 <= k < |now| ==> r[k] == if i <= k < live - 1 then now[k + 1] else now[k]
  {
    now[..i] + now[i + 1..live] + now[live - 1..]
  }

  lemma ShiftedEnds<T>(c: seq<T>, i: nat)
    requires i < |c|
    ensures Shifted(c, i, |c|)[..|c| - 1] == c[..i] + c[i + 1..]
    ensures Shifted(c, i, |c|) == c[..i] + c[i + 1..] + [c[|c| - 1]]
  {
  }

  /**
   * append(s[:i], s[i+1:]...) fits in the capacity, so it shifts the tail of the shared array down by one.
   * `seen` is how much of the array another slice over it can see.
   */
  method DeleteAt(s: Slice, i: nat, ghost seen: nat) returns (r: Slice)
    requires s.Valid() && i < s.len <= seen <= s.arr.Length
    modifies s.arr
    ensures r == Slice(s.arr, s.len - 1) && r.Valid()
    ensures s.arr[..seen] == Shifted(old(s.arr[..seen]), i, s.len)
  {
    ghost var before := s.arr[..seen];
    for k := i to s.len - 1
      invariant forall j :: 0 <= j < i ==> s.arr[j] == before[j]
      invariant forall j :: i <= j < k ==> s.arr[j] == before[j + 1]
      invariant forall j :: k <= j < seen ==> s.arr[j] == before[j]
    {
      s.arr[k] := s.arr[k + 1];
    }
    r := Slice(s.arr, s.len - 1);
    assert s.arr[..seen] == Shifted(before, i, s.len);
  }

  /** Deleting from the current slice, as the slice the loop ranges over sees it. */
  method DeleteLive(s: Slice, live: Slice, i: nat, ghost now: seq<Pod>) returns (r: Slice)
    requires s.Valid() && live.arr == s.arr && i < live.len <= s.len && s.Contents() == now
    modifies s.arr
    ensures s.Valid() && r == Slice(s.arr, live.len - 1) && s.Contents() == Shifted(now, i, live.len)
  {
    r := DeleteAt(live, i, s.len);
    assert s.arr[..s.len] == Shifted(now, i, live.len);
    assert forall k :: 0 <= k < s.len ==> s.arr[k] == Shifted(now, i, live.len)[k];
  }

  // ---------- Deleting while ranging ----------

  /**
   * Where RemovePod's namespace loop stands at index i: `c` is the slice it ranges over, `now` its array by now and
   * `live` the length of the current slice. Left-over positions all hold the original last element.
   */
  ghost predicate Ranging(c: seq<Pod>, now: seq<Pod>, i: nat, live: nat, name: string) {
    i <= |c| == |now| && live <= |c| && Layout(c, now, i, live) && Kept(c, now, i, live, name)
      && Matched(c, i, live, name)
  }

  /** What is not visited yet is the tail of `c`, and what the current slice has lost holds the last element. */
  ghost predicate Layout(c: seq<Pod>, now: seq<Pod>, i: nat, live: nat)
    requires i <= |c| == |now| && live <= |c|
  {
    && (forall k :: i <= k < live ==> now[k] == c[k + (|c| - live)])
    && (forall k :: live <= k < |c| ==> now[k] == c[|c| - 1])
    && (|c| > 0 ==> now[|c| - 1] == c[|c| - 1])
  }

  ghost predicate Kept(c: seq<Pod>, now: seq<Pod>, i: nat, live: nat, name: string)
    requires i <= |c| == |now| && live <= |c|
  {
    if i <= live then now[..i] + Survivors(c[i + (|c| - live)..], name) == Survivors(c, name)
    else now[..live] == Survivors(c, name)
  }

  /** Whether an earlier pod had the name, so that the current slice is shorter. */
  ghost predicate Matched(c: seq<Pod>, i: nat, live: nat, name: string)
    requires i <= |c| && live <= |c|
  {
    && (live == |c| ==> forall k :: 0 <= k < i ==> c[k].name != name)
    && (live < |c| && i < |c| ==> Named(c[..|c| - 1], name))
    && (i == |c| > 0 && c[|c| - 1].name == name ==> !Named(c[..|c| - 1], name))
  }

  lemma KeptKeeps(c: seq<Pod>, now: seq<Pod>, i: nat, live: nat, name: string)
    requires i < live <= |c| == |now| && Kept(c, now, i, live, name)
    requires now[i] == c[i + (|c| - live)] && now[i].name != name
    ensures Kept(c, now, i + 1, live, name)
  {
    var j := i + (|c| - live);
    assert c[j..][1..] == c[j + 1..];
    assert now[..i + 1] == now[..i] + [c[j]];
    assert now[..i] + ([c[j]] + Survivors(c[j + 1..], name)) == now[..i + 1] + Survivors(c[j + 1..], name);
  }

  lemma RangingKeeps(c: seq<Pod>, now: seq<Pod>, i: nat, live: nat, name: string)
    requires Ranging(c, now, i, live, name) && i < |c| && now[i].name != name
    ensures Ranging(c, now, i + 1, live, name)
  {
    if i < live {
      assert now[i] == c[i + (|c| - live)];
      KeptKeeps(c, now, i, live, name);
    }
  }

  lemma LayoutDeletes(c: seq<Pod>, now: seq<Pod>, i: nat, live: nat)
    requires i < live <= |c| == |now| && Layout(c, now, i, live)
    ensures Layout(c, Shifted(now, i, live), i + 1, live - 1)
  {
    var next := Shifted(now, i, live);
    assert now[live - 1] == c[live - 1 + (|c| - live)];
    forall k | i + 1 <= k < live - 1
      ensures next[k] == c[k + (|c| - (live - 1))]
    {
      assert next[k] == now[k + 1] == c[k + 1 + (|c| - live)];
    }
  }

  lemma KeptDeletes(c: seq<Pod>, now: seq<Pod>, i: nat, live: nat, name: string)
    requires i < live <= |c| == |now| && Layout(c, now, i, live) && Kept(c, now, i, live, name) && now[i].name == name
    ensures Kept(c, Shifted(now, i, live), i + 1, live - 1, name)
  {
    var next, j := Shifted(now, i, live), i + (|c| - live);
    assert now[i] == c[j];
    if i + 1 < live {
      assert next[i] == now[i + 1] == c[i + 1 + (|c| - live)];
      assert c[j..][1] == c[j + 1] && c[j..][2..] == c[j + 2..];
      assert next[..i + 1] == now[..i] + [c[j + 1]];
      assert now[..i] + ([c[j + 1]] + Survivors(c[j + 2..], name)) == next[..i + 1] + Survivors(c[j + 2..], name);
    } else {
      assert next[..live - 1] == now[..i];
      assert now[..i] + [] == now[..i];
    }
  }

  lemma MatchedDeletes(c: seq<Pod>, now: seq<Pod>, i: nat, live: nat, name: string)
    requires i < live <= |c| == |now| && Layout(c, now, i, live) && Matched(c, i, live, name) && now[i].name == name
    ensures Matched(c, i + 1, live - 1, name)
  {
    assert now[i] == c[i + (|c| - live)];
    if live == |c| && i < |c| - 1 {
      assert c[..|c| - 1][i].name == name;
    }
  }

  lemma RangingDeletes(c: seq<Pod>, now: seq<Pod>, i: nat, live: nat, name: string)
    requires Ranging(c, now, i, live, name) && i < live && now[i].name == name
    ensures Ranging(c, Shifted(now, i, live), i + 1, live - 1, name)
  {
    LayoutDeletes(c, now, i, live);
    KeptDeletes(c, now, i, live, name);
    MatchedDeletes(c, now, i, live, name);
  }

  /** A match past the current slice means the last pod matches and an earlier one did. */
  lemma RangingPanics(c: seq<Pod>, now: seq<Pod>, i: nat, live: nat, name: string)
    requires Ranging(c, now, i, live, name) && live <= i < |c| && now[i].name == name
    ensures RangePanics(c, name)
  {
  }

  lemma RangingStarts(c: seq<Pod>, name: string)
    ensures Ranging(c, c, 0, |c|, name)
  {
    assert c[..0] == [] && c[0..] == c;
    assert [] + Survivors(c, name) == Survivors(c, name);
  }

  lemma RangingEnds(c: seq<Pod>, now: seq<Pod>, live: nat, name: string)
    requires Ranging(c, now, |c|, live, name)
    ensures now[..live] == Survivors(c, name) && !RangePanics(c, name)
    ensures forall i :: live <= i < |c| ==> now[i] == c[|c| - 1]
  {
    if live == |c| {
      assert c[|c| + |c| - live..] == [];
      assert now[..|c|] + [] == now[..live];
    }
  }

  /** The body of RemovePod's namespace loop; `now` and `after` are the array before and after it. */
  method VisitNext(s: Slice, live: Slice, i: nat, name: string, ghost c: seq<Pod>, ghost now: seq<Pod>)
    returns (r: Slice, panicked: bool, ghost after: seq<Pod>)
    requires s.Valid() && live.arr == s.arr && live.len <= s.len && i < s.len
    requires s.Contents() == now && Ranging(c, now, i, live.len, name)
    modifies s.arr
    ensures s.Valid() && r.arr == s.arr && r.len <= s.len && s.Contents() == after
    ensures if panicked then RangePanics(c, name) else Ranging(c, after, i + 1, r.len, name)
  {
    var p := s.arr[i];
    assert p == now[i];
    r, panicked, after := live, false, now;
    if p.name == name {
      if i + 1 > live.len {
        RangingPanics(c, now, i, live.len, name);
        return live, true, now;
      }
      RangingDeletes(c, now, i, live.len, name);
      after := Shifted(now, i, live.len);
      r := DeleteLive(s, live, i, now);
    } else {
      RangingKeeps(c, now, i, live.len, name);
    }
  }

  method VisitAll(s: Slice, name: string, ghost c: seq<Pod>) returns (r: Slice, panicked: bool)
    requires s.Valid() && c == s.Contents()
    modifies s.arr
    ensures s.Valid() && r.arr == s.arr && r.len <= s.len
    ensures if panicked then RangePanics(c, name) else Ranging(c, s.Contents(), |c|, r.len, name)
  {
    r, panicked := s, false;
    RangingStarts(c, name);
    for i := 0 to s.len
      invariant r.arr == s.arr && r.len <= s.len && s.Valid() && !panicked
      invariant Ranging(c, s.Contents(), i, r.len, name)
    {
      ghost var now;
      r, panicked, now := VisitNext(s, r, i, name, c, s.Contents());
      if panicked {
        return;
      }
    }
  }

  /**
   * RemovePod's loop over the namespace: it ranges over the slice as it was at the start, reading each element from the
   * array as it is by then, and deletes from the current slice. The deletion may be out of bounds, which is a panic.
   */
  method DeleteWhileRanging(s: Slice, name: string) returns (r: Slice, panicked: bool)
    requires s.Valid()
    modifies s.arr
    ensures panicked <==> RangePanics(old(s.Contents()), name)
    ensures r.arr == s.arr && r.len <= s.len && r.Valid()
    ensures !panicked ==> r.Contents() == Survivors(old(s.Contents()), name)
    ensures !panicked ==> forall i :: r.len <= i < s.len ==> s.arr[i] == old(s.arr[s.len - 1])
  {
    ghost var c := s.Contents();
    r, panicked := VisitAll(s, name, c);
    if !panicked {
      RangingEnds(c, s.Contents(), r.len, name);
      assert r.Contents() == s.Contents()[..r.len];
      assert forall i :: r.len <= i < s.len ==> s.arr[i] == s.Contents()[i];
    }
  }

  lemma {:induction false} FirstMatch(c: seq<Pod>, i: nat, name: string)
    requires i < |c| && c[i].name == name && forall k :: 0 <= k < i ==> c[k].name != name
    ensures WithoutFirst(c, name) == c[..i] + c[i + 1..]
  {
    if i > 0 {
      var rest := c[1..];
      assert forall k :: 0 <= k < |rest| ==> rest[k] == c[k + 1];
      FirstMatch(rest, i - 1, name);
      assert [c[0]] + (rest[..i - 1] + rest[i..]) == c[..i] + c[i + 1..];
    }
  }

  /** A slice handed out over the array before a deletion now shows the remaining pods and the last pod twice. */
  ghost predicate SeenShifted(r: Slice, before: seq<Pod>)
    requires r.Valid()
    reads r.arr
  {
    |before| == r.len + 1 <= r.arr.Length && r.arr[..|before|] == r.Contents() + [before[|before| - 1]]
  }

  /** RemovePod's loop over the cache stops at the first match. */
  method DeleteFirst(s: Slice, name: string) returns (r: Slice, found: bool)
    requires s.Valid()
    modifies s.arr
    ensures r.arr == s.arr && r.len <= s.len && r.Valid()
    ensures found <==> Named(old(s.Contents()), name)
    ensures r.Contents() == WithoutFirst(old(s.Contents()), name)
    ensures found ==> SeenShifted(r, old(s.Contents()))
  {
    ghost var c := s.Contents();
    r, found := s, false;
    for i := 0 to s.len
      invariant s.Valid() && s.Contents() == c
      invariant forall k :: 0 <= k < i ==> c[k].name != name
    {
      if s.arr[i].name == name {
        assert c[i].name == name;
        FirstMatch(c, i, name);
        r := DeleteAt(s, i, s.len);
        ShiftedEnds(c, i);
        assert s.arr[..s.len] == Shifted(c, i, |c|);
        assert r.Contents() == s.arr[..s.len][..r.len];
        return r, true;
      }
    }
    SurvivorsAbsent(c, name);
  }
}
