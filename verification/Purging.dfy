// Removing pods by name one after the other, in any order (pkg/matrix/manager.go, pkg/matrix/model.go).
module Purging {
  import opened Text
  import opened Entities
  import opened ModelSpec

  // ---------- What is left ----------

  /** The pods with none of the names, in order. */
  function Keep(s: seq<Pod>, names: set<string>): seq<Pod> {
    if s == [] then []
    else Keep(s[..|s| - 1], names) + if s[|s| - 1].name in names then [] else [s[|s| - 1]]
  }

  lemma {:induction false} KeepMembers(s: seq<Pod>, names: set<string>)
    ensures forall p :: p in Keep(s, names) ==> p in s && p.name !in names
    ensures forall p :: p in s && p.name !in names ==> p in Keep(s, names)
    ensures DistinctNames(s) ==> DistinctNames(Keep(s, names))
  {
    if s != [] {
      var front, last := s[..|s| - 1], s[|s| - 1];
      assert s == front + [last];
      KeepMembers(front, names);
      if DistinctNames(s) {
        assert forall i :: 0 <= i < |front| ==> front[i].name != last.name;
        forall i | 0 <= i < |Keep(front, names)|
          ensures Keep(front, names)[i].name != last.name
        {
          assert Keep(front, names)[i] in front;
        }
      }
    }
  }

  lemma {:induction false} KeepNothingOut(s: seq<Pod>)
    ensures Keep(s, {}) == s
  {
    if s != [] {
      KeepNothingOut(s[..|s| - 1]);
    }
  }

  lemma {:induction false} KeepNone(s: seq<Pod>, names: set<string>)
    requires forall p :: p in s ==> p.name in names
    ensures Keep(s, names) == []
  {
    if s != [] {
      assert s[|s| - 1] in s && forall p :: p in s[..|s| - 1] ==> p in s;
      KeepNone(s[..|s| - 1], names);
    }
  }

  lemma {:induction false} KeepOneMore(s: seq<Pod>, names: set<string>, name: string)
    ensures Without(Keep(s, names), name) == Keep(s, names + {name})
  {
    if s != [] {
      var front, last := s[..|s| - 1], s[|s| - 1];
      KeepOneMore(front, names, name);
      WithoutAppend(Keep(front, names), if last.name in names then [] else [last], name);
      assert Without([last], name) == if last.name == name then [] else [last] by {
        assert [last][..0] == [];
      }
    }
  }

  /** Without the first pod of each of the names, as RemovePod leaves the cache. */
  ghost function DropFirst(s: seq<Pod>, names: set<string>): seq<Pod> {
    if s == [] then []
    else if s[0].name in names then DropFirst(s[1..], names - {s[0].name})
    else [s[0]] + DropFirst(s[1..], names)
  }

  lemma {:induction false} DropNothing(s: seq<Pod>)
    ensures DropFirst(s, {}) == s
  {
    if s != [] {
      DropNothing(s[1..]);
    }
  }

  /** Names can be dropped in any order. */
  lemma {:induction false} DropOneMore(s: seq<Pod>, names: set<string>, name: string)
    requires name !in names
    ensures WithoutFirst(DropFirst(s, names), name) == DropFirst(s, names + {name})
    decreases |s|
  {
    if s != [] {
      var head := s[0].name;
      if head in names {
        DropOneMore(s[1..], names - {head}, name);
        assert names - {head} + {name} == names + {name} - {head};
      } else if head == name {
        assert names + {name} - {head} == names;
        assert ([s[0]] + DropFirst(s[1..], names))[1..] == DropFirst(s[1..], names);
      } else {
        DropOneMore(s[1..], names, name);
        assert ([s[0]] + DropFirst(s[1..], names))[1..] == DropFirst(s[1..], names);
      }
    }
  }

  /** With distinct names, dropping the first of each name drops all of them. */
  lemma {:induction false} DropDistinct(s: seq<Pod>, names: set<string>)
    requires DistinctNames(s)
    ensures DropFirst(s, names) == Keep(s, names)
    decreases |s|
  {
    if s != [] {
      assert forall i :: 0 <= i < |s[1..]| ==> s[1..][i] == s[i + 1];
      KeepHead(s, names);
      if s[0].name in names {
        DropDistinct(s[1..], names - {s[0].name});
        KeepWithout(s[1..], names, s[0].name);
      } else {
        DropDistinct(s[1..], names);
      }
    }
  }

  lemma {:induction false} KeepHead(s: seq<Pod>, names: set<string>)
    requires s != []
    ensures Keep(s, names) == (if s[0].name in names then [] else [s[0]]) + Keep(s[1..], names)
    decreases |s|
  {
    var front, last := s[..|s| - 1], s[|s| - 1];
    if front == [] {
      assert s[1..] == [];
    } else {
      KeepHead(front, names);
      assert s[1..][..|s[1..]| - 1] == front[1..] && s[1..][|s[1..]| - 1] == last;
    }
  }

  lemma {:induction false} KeepWithout(s: seq<Pod>, names: set<string>, name: string)
    requires !Named(s, name)
    ensures Keep(s, names - {name}) == Keep(s, names)
  {
    if s != [] {
      assert s[|s| - 1].name != name;
      KeepWithout(s[..|s| - 1], names, name);
    }
  }

  // ---------- One namespace, name by name ----------

  /** What the namespace loop leaves when it runs for one name after the other. */
  function Left(s: seq<Pod>, order: seq<string>): seq<Pod>
    decreases |order|
  {
    if order == [] then s else Left(Survivors(s, order[0]), order[1..])
  }

  /** No loop slices out of bounds. The removal stops at the first name that is held, after its loop. */
  ghost predicate Finishes(s: seq<Pod>, order: seq<string>, held: set<string>)
    decreases |order|
  {
    || order == []
    || (!RangePanics(s, order[0]) && (order[0] in held || Finishes(Survivors(s, order[0]), order[1..], held)))
  }

  /** The names once each, as Go visits the keys of a map. */
  ghost predicate OrderOf(order: seq<string>, names: set<string>) {
    Distinct(order) && forall name :: name in order <==> name in names
  }

  /** Behind the pod only names that are to be removed and not held. */
  ghost predicate Exposed(s: seq<Pod>, i: int, names: set<string>, held: set<string>) {
    0 <= i < |s| && s[i].name in names && forall j :: i < j < |s| ==> s[j].name in names - held
  }

  /** Each pod that can become the last one before its name's turn has a name of its own. */
  ghost predicate TailOnce(s: seq<Pod>, names: set<string>, held: set<string>) {
    forall i :: Exposed(s, i, names, held) ==> Once(s, s[i].name)
  }

  lemma OrderRest(order: seq<string>, names: set<string>)
    requires OrderOf(order, names) && order != []
    ensures OrderOf(order[1..], names - {order[0]}) && order[0] in names
  {
    assert forall i :: 0 <= i < |order[1..]| ==> order[1..][i] == order[i + 1];
    forall name
      ensures name in order[1..] <==> name in names - {order[0]}
    {
      if name in names - {order[0]} {
        var i :| 0 <= i < |order| && order[i] == name;
        assert order[1..][i - 1] == name;
      }
    }
  }

  lemma OrderFirst(name: string, rest: seq<string>, names: set<string>)
    requires name in names && OrderOf(rest, names - {name})
    ensures OrderOf([name] + rest, names)
  {
  }

  lemma AnyOrder(names: set<string>) returns (order: seq<string>)
    ensures OrderOf(order, names)
  {
    if names == {} {
      order := [];
    } else {
      var name :| name in names;
      var rest := AnyOrder(names - {name});
      order := [name] + rest;
      OrderFirst(name, rest, names);
    }
  }

  /** Where the loop can be cut in two: an element it might skip at the cut does not have the name anyway. */
  lemma {:induction false} SurvivorsSplit(a: seq<Pod>, b: seq<Pod>, name: string)
    requires a == [] || a[|a| - 1].name != name || b == [] || b[0].name != name
    ensures Survivors(a + b, name) == Survivors(a, name) + Survivors(b, name)
  {
    if a == [] {
      assert a + b == b;
    } else if a[0].name != name {
      assert (a + b)[1..] == a[1..] + b;
      SurvivorsSplit(a[1..], b, name);
    } else if |a| == 1 {
      if b == [] {
        assert a + b == a;
      } else {
        assert (a + b)[2..] == b[1..] && (a + b)[1] == b[0];
      }
    } else {
      assert (a + b)[2..] == a[2..] + b;
      SurvivorsSplit(a[2..], b, name);
    }
  }

  lemma SurvivorsBack(front: seq<Pod>, last: Pod, name: string)
    requires last.name != name
    ensures Survivors(front + [last], name) == Survivors(front, name) + [last]
  {
    SurvivorsSplit(front, [last], name);
    assert [last][1..] == [];
  }

  lemma {:induction false} SurvivorsMembers(s: seq<Pod>, name: string)
    ensures forall p :: p in Survivors(s, name) ==> p in s
  {
    if s != [] {
      if s[0].name != name {
        SurvivorsMembers(s[1..], name);
      } else if |s| > 1 {
        SurvivorsMembers(s[2..], name);
      }
    }
  }

  lemma SurvivorsNamed(s: seq<Pod>, name: string, other: string)
    requires Named(Survivors(s, name), other)
    ensures Named(s, other)
  {
    SurvivorsMembers(s, name);
    var i :| 0 <= i < |Survivors(s, name)| && Survivors(s, name)[i].name == other;
    assert Survivors(s, name)[i] in s;
  }

  lemma OnceBack(front: seq<Pod>, last: Pod, name: string)
    ensures Once(front + [last], name) <==> Once(front, name) && !(last.name == name && Named(front, name))
  {
    var s := front + [last];
    assert forall i :: 0 <= i < |front| ==> s[i] == front[i];
    if last.name == name && Named(front, name) {
      var i :| 0 <= i < |front| && front[i].name == name;
      assert s[i].name == name && s[|front|].name == name;
    }
    if Once(s, name) {
      forall i, j | 0 <= i < j < |front|
        ensures !(front[i].name == name && front[j].name == name)
      {
        assert s[i] == front[i] && s[j] == front[j];
      }
    }
  }

  lemma ExposedBack(front: seq<Pod>, last: Pod, i: nat, names: set<string>, held: set<string>)
    requires i < |front| && !Named(front, last.name)
    ensures Exposed(front + [last], i, names, held) <==>
            last.name in names - held && Exposed(front, i, names - {last.name}, held)
  {
    var s := front + [last];
    assert forall j :: 0 <= j < |front| ==> s[j] == front[j] && front[j].name != last.name;
    if Exposed(s, i, names, held) {
      assert s[|front|].name in names - held;
      forall j | i < j < |front|
        ensures front[j].name in names - {last.name} - held
      {
        assert s[j].name in names - held;
      }
    }
  }

  /** The condition, seen from the last pod. */
  lemma TailOncePeel(front: seq<Pod>, last: Pod, names: set<string>, held: set<string>)
    ensures TailOnce(front + [last], names, held) <==>
            last.name in names ==>
              !Named(front, last.name) && (last.name in held || TailOnce(front, names - {last.name}, held))
  {
    var s, fewer := front + [last], names - {last.name};
    OnceBack(front, last, last.name);
    if last.name !in names {
      assert s[|front|].name !in names;
    } else if TailOnce(s, names, held) {
      assert Exposed(s, |front|, names, held);
      if last.name !in held {
        forall i | Exposed(front, i, fewer, held)
          ensures Once(front, front[i].name)
        {
          ExposedBack(front, last, i, names, held);
          OnceBack(front, last, front[i].name);
          assert s[i] == front[i];
        }
      }
    } else if !Named(front, last.name) {
      var i :| Exposed(s, i, names, held) && !Once(s, s[i].name);
      if i < |front| {
        ExposedBack(front, last, i, names, held);
        OnceBack(front, last, front[i].name);
      }
    }
  }

  lemma SplitLast(s: seq<Pod>) returns (front: seq<Pod>, last: Pod)
    requires s != []
    ensures s == front + [last] && front == s[..|s| - 1] && last == s[|s| - 1]
  {
    front, last := s[..|s| - 1], s[|s| - 1];
  }

  /** Under the condition no first name panics, and unless it is held the condition goes on. */
  lemma {:induction false} TailOnceNext(s: seq<Pod>, names: set<string>, held: set<string>, name: string)
    requires TailOnce(s, names, held) && name in names
    ensures !RangePanics(s, name)
    ensures name !in held ==> TailOnce(Survivors(s, name), names - {name}, held)
    decreases |s|
  {
    if s != [] {
      var front, last := SplitLast(s);
      TailOncePeel(front, last, names, held);
      if name !in held {
        if last.name == name {
          LastGoes(front, last);
        } else {
          SurvivorsBack(front, last, name);
          TailOncePeel(Survivors(front, name), last, names - {name}, held);
          if Named(Survivors(front, name), last.name) {
            SurvivorsNamed(front, name, last.name);
          }
          if last.name in names && last.name !in held {
            TailOnceNext(front, names - {last.name}, held, name);
            assert names - {last.name} - {name} == names - {name} - {last.name};
          }
        }
      }
    }
  }

  lemma LastGoes(front: seq<Pod>, last: Pod)
    requires !Named(front, last.name)
    ensures Survivors(front + [last], last.name) == front && !RangePanics(front + [last], last.name)
  {
    SurvivorsAbsent(front, last.name);
    SurvivorsSplit(front, [last], last.name);
    assert (front + [last])[..|front|] == front;
  }

  lemma {:induction false} TailOnceFinishes(s: seq<Pod>, names: set<string>, held: set<string>, order: seq<string>)
    requires TailOnce(s, names, held) && OrderOf(order, names)
    ensures Finishes(s, order, held)
    decreases |order|
  {
    if order != [] {
      OrderRest(order, names);
      TailOnceNext(s, names, held, order[0]);
      if order[0] !in held {
        TailOnceFinishes(Survivors(s, order[0]), names - {order[0]}, held, order[1..]);
      }
    }
  }

  /** Without the condition, taking the pods off from the back ends in a panic. */
  lemma {:induction false} PanickingOrder(s: seq<Pod>, names: set<string>, held: set<string>)
    returns (order: seq<string>)
    requires !TailOnce(s, names, held)
    ensures OrderOf(order, names) && !Finishes(s, order, held)
    decreases |s|
  {
    var front, last := SplitLast(s);
    TailOncePeel(front, last, names, held);
    var rest;
    if Named(front, last.name) {
      rest := AnyOrder(names - {last.name});
    } else {
      rest := PanickingOrder(front, names - {last.name}, held);
      LastGoes(front, last);
    }
    OrderFirst(last.name, rest, names);
    order := [last.name] + rest;
    assert order[1..] == rest;
  }

  /**
   * No order panics if and only if every pod that can become the last one before its name's turn has a name of its own:
   * from the back, the pods to be removed up to the first that is kept or held.
   */
  lemma NoOrderPanics(s: seq<Pod>, names: set<string>, held: set<string>)
    ensures (forall order :: OrderOf(order, names) ==> Finishes(s, order, held)) <==> TailOnce(s, names, held)
  {
    if TailOnce(s, names, held) {
      forall order | OrderOf(order, names)
        ensures Finishes(s, order, held)
      {
        TailOnceFinishes(s, names, held, order);
      }
    } else {
      var order := PanickingOrder(s, names, held);
    }
  }

  // ---------- All pods of the names, in whatever order ----------

  ghost predicate KeptBetween(s: seq<Pod>, i: int, j: int, names: set<string>) {
    exists k :: 0 <= i < k < j < |s| && s[k].name !in names
  }

  /** Between any two pods of one of the names there is a pod that stays. */
  ghost predicate Parted(s: seq<Pod>, names: set<string>) {
    forall i, j :: 0 <= i < j < |s| && s[i].name == s[j].name && s[i].name in names ==> KeptBetween(s, i, j, names)
  }

  lemma {:induction false} LastKept(s: seq<Pod>, names: set<string>) returns (i: nat)
    requires Keep(s, names) != []
    ensures i < |s| && s[i] == Keep(s, names)[|Keep(s, names)| - 1] && forall j :: i < j < |s| ==> s[j].name in names
  {
    if s[|s| - 1].name in names {
      i := LastKept(s[..|s| - 1], names);
    } else {
      i := |s| - 1;
    }
  }

  predicate Scattered(s: seq<Pod>, name: string) {
    forall i :: 0 <= i < |s| - 1 ==> !(s[i].name == name && s[i + 1].name == name)
  }

  lemma PartedFront(front: seq<Pod>, last: Pod, names: set<string>)
    requires Parted(front + [last], names)
    ensures Parted(front, names)
  {
    var s := front + [last];
    forall i, j | 0 <= i < j < |front| && front[i].name == front[j].name && front[i].name in names
      ensures KeptBetween(front, i, j, names)
    {
      assert s[i] == front[i] && s[j] == front[j] && KeptBetween(s, i, j, names);
      var k :| i < k < j && s[k].name !in names;
      assert front[k] == s[k];
    }
  }

  lemma {:induction false} PartedKeep(s: seq<Pod>, done: set<string>, name: string, names: set<string>)
    requires Parted(s, names) && done <= names && name in names
    ensures Scattered(Keep(s, done), name)
  {
    if s != [] {
      var front, last := SplitLast(s);
      PartedFront(front, last, names);
      PartedKeep(front, done, name, names);
      var kept := Keep(front, done);
      if kept != [] && last.name == name {
        var i := LastKept(front, done);
        assert !KeptBetween(s, i, |front|, names);
      }
    }
  }

  lemma {:induction false} SurvivorsApart(s: seq<Pod>, name: string)
    requires Scattered(s, name)
    ensures Survivors(s, name) == Without(s, name)
    decreases |s|
  {
    if s != [] {
      WithoutHead(s, name);
      if s[0].name != name {
        assert forall i :: 0 <= i < |s[1..]| ==> s[1..][i] == s[i + 1];
        SurvivorsApart(s[1..], name);
      } else if |s| > 1 {
        assert forall i :: 0 <= i < |s[2..]| ==> s[2..][i] == s[i + 2];
        assert !(s[0].name == name && s[0 + 1].name == name);
        SurvivorsApart(s[2..], name);
        WithoutHead(s[1..], name);
        assert s[1..][1..] == s[2..];
      }
    }
  }

  lemma {:induction false} LeftParted(s: seq<Pod>, done: set<string>, order: seq<string>, names: set<string>)
    requires OrderOf(order, names) && Parted(s, done + names)
    ensures Left(Keep(s, done), order) == Keep(s, done + names)
    decreases |order|
  {
    if order == [] {
      assert names == {};
      assert done + names == done;
    } else {
      var name := order[0];
      OrderRest(order, names);
      PartedKeep(s, done, name, done + names);
      SurvivorsApart(Keep(s, done), name);
      KeepOneMore(s, done, name);
      assert done + {name} + (names - {name}) == done + names;
      LeftParted(s, done + {name}, order[1..], names - {name});
    }
  }

  lemma {:induction false} SurvivorsOther(s: seq<Pod>, name: string, other: string)
    requires name != other && Named(s, other)
    ensures Named(Survivors(s, name), other)
    decreases |s|
  {
    var i :| 0 <= i < |s| && s[i].name == other;
    if s[0].name != name {
      if i > 0 {
        assert s[1..][i - 1].name == other;
        SurvivorsOther(s[1..], name, other);
      }
      NamedHead(s[0], Survivors(s[1..], name), other);
    } else {
      if i > 1 {
        assert s[2..][i - 2].name == other;
        SurvivorsOther(s[2..], name, other);
      }
      NamedHead(s[1], Survivors(s[2..], name), other);
    }
  }

  lemma {:induction false} LeftOther(s: seq<Pod>, order: seq<string>, other: string)
    requires other !in order && Named(s, other)
    ensures Named(Left(s, order), other)
    decreases |order|
  {
    if order != [] {
      SurvivorsOther(s, order[0], other);
      LeftOther(Survivors(s, order[0]), order[1..], other);
    }
  }

  /** Two pods of one name and the pods between and around them. */
  function Around(a: seq<Pod>, p: Pod, m: seq<Pod>, q: Pod, c: seq<Pod>): seq<Pod> {
    a + [p] + m + [q] + c
  }

  lemma SurvivorsHead(p: Pod, rest: seq<Pod>, name: string)
    requires rest != [] && rest[0].name != name
    ensures Survivors([p] + rest, name) == (if p.name == name then [] else [p]) + Survivors(rest, name)
  {
    var s := [p] + rest;
    assert s[1..] == rest && s[2..] == rest[1..] && s[1] == rest[0];
  }

  lemma AroundBack(m: seq<Pod>, q: Pod, c: seq<Pod>, name: string)
    requires q.name != name && !Named(m, name)
    ensures Survivors(m + ([q] + c), name) == m + [q] + Survivors(c, name)
  {
    SurvivorsSplit(m, [q] + c, name);
    SurvivorsAbsent(m, name);
    assert ([q] + c)[1..] == c;
  }

  lemma AroundNext(a: seq<Pod>, p: Pod, r: Pod, m: seq<Pod>, q: Pod, c: seq<Pod>)
    requires r.name != p.name == q.name && !Named(m, r.name)
    ensures Survivors(Around(a, p, [r] + m, q, c), r.name)
            == Around(Survivors(a, r.name), p, m, q, Survivors(c, r.name))
  {
    var back := m + ([q] + c);
    assert Around(a, p, [r] + m, q, c) == a + ([p] + ([r] + back));
    SurvivorsSplit(a, [p] + ([r] + back), r.name);
    assert Survivors([p] + ([r] + back), r.name) == [p] + Survivors([r] + back, r.name) by {
      assert ([p] + ([r] + back))[1..] == [r] + back;
    }
    assert back[0] == if m == [] then q else m[0];
    SurvivorsHead(r, back, r.name);
    AroundBack(m, q, c, r.name);
  }

  /** An order that brings two pods of one name together leaves one of them. */
  lemma {:induction false} LeavingOrder(a: seq<Pod>, p: Pod, m: seq<Pod>, q: Pod, c: seq<Pod>, names: set<string>)
    returns (order: seq<string>, left: string)
    requires p.name == q.name && p.name in names && forall r :: r in m ==> r.name in names
    ensures OrderOf(order, names) && left in names && Named(Left(Around(a, p, m, q, c), order), left)
    decreases |m|
  {
    var s := Around(a, p, m, q, c);
    if m == [] || m[0].name == p.name {
      left := p.name;
      var rest := AnyOrder(names - {left});
      order := [left] + rest;
      OrderFirst(left, rest, names);
      assert s[|a|].name == left && s[|a| + 1].name == left;
      SurvivorsMayRemain(s, left);
      LeftOther(Survivors(s, left), rest, left);
      assert order[1..] == rest;
    } else if Named(m[1..], m[0].name) {
      var k :| 0 <= k < |m[1..]| && m[1..][k].name == m[0].name;
      var near, far := m[1..][..k], m[1..][k + 1..] + [q] + c;
      assert m == [m[0]] + near + [m[1..][k]] + m[1..][k + 1..];
      assert s == Around(a + [p], m[0], near, m[1..][k], far);
      assert forall r :: r in near ==> r in m;
      order, left := LeavingOrder(a + [p], m[0], near, m[1..][k], far, names);
    } else {
      var name := m[0].name;
      AroundNext(a, p, m[0], m[1..], q, c);
      assert [m[0]] + m[1..] == m;
      forall r | r in m[1..]
        ensures r.name in names - {name}
      {
        assert r in m;
      }
      var rest;
      rest, left := LeavingOrder(Survivors(a, name), p, m[1..], q, Survivors(c, name), names - {name});
      order := [name] + rest;
      OrderFirst(name, rest, names);
      assert order[1..] == rest;
    }
  }

  /** Every pod of the names goes and no loop panics. */
  ghost predicate Clears(s: seq<Pod>, order: seq<string>, names: set<string>) {
    Finishes(s, order, {}) && Left(s, order) == Keep(s, names)
  }

  lemma NotParted(s: seq<Pod>, names: set<string>) returns (order: seq<string>)
    requires !Parted(s, names)
    ensures OrderOf(order, names) && !Clears(s, order, names)
  {
    var i, j :| 0 <= i < j < |s| && s[i].name == s[j].name && s[i].name in names && !KeptBetween(s, i, j, names);
    assert s == Around(s[..i], s[i], s[i + 1..j], s[j], s[j + 1..]);
    var left;
    order, left := LeavingOrder(s[..i], s[i], s[i + 1..j], s[j], s[j + 1..], names);
    KeepMembers(s, names);
    var k :| 0 <= k < |Left(s, order)| && Left(s, order)[k].name == left;
    assert Left(s, order)[k] !in Keep(s, names);
  }

  /**
   * If no deletion fails, every order removes exactly the pods of the names if and only if no order panics and between
   * any two pods of one of the names there is a pod that stays.
   */
  lemma EveryOrderClears(s: seq<Pod>, names: set<string>)
    ensures (forall order :: OrderOf(order, names) ==> Clears(s, order, names)) <==>
            TailOnce(s, names, {}) && Parted(s, names)
  {
    NoOrderPanics(s, names, {});
    if TailOnce(s, names, {}) && Parted(s, names) {
      forall order | OrderOf(order, names)
        ensures Clears(s, order, names)
      {
        KeepNothingOut(s);
        assert {} + names == names;
        LeftParted(s, {}, order, names);
        assert Finishes(s, order, {});
      }
    } else if !TailOnce(s, names, {}) {
      var order := PanickingOrder(s, names, {});
      assert !Clears(s, order, names);
    } else {
      var order := NotParted(s, names);
    }
  }

  // ---------- The whole model ----------

  function NamesIn(order: seq<string>): set<string> {
    set name | name in order
  }

  /** RemovePod for one name after the other; it stops where a deletion fails, and no call panics. */
  ghost predicate Completes(v: ModelView, ns: string, order: seq<string>, held: set<string>)
    decreases |order|
  {
    || order == []
    || var op := RemovePod(order[0], ns);
       !Panics(v, op) && (order[0] in held || Completes(Step(v, op), ns, order[1..], held))
  }

  /** Unless there is nothing to remove, the cache is there to look in and no order panics in the namespace. */
  ghost predicate Purgeable(v: ModelView, ns: string, names: set<string>, held: set<string>) {
    var k := LastNamespace(v.namespaces, ns);
    k.Some? && names != {} ==> v.cache.Some? && TailOnce(v.namespaces[k.value].pods, names, held)
  }

  /** The model after RemovePod for each of the names in order. */
  ghost function PurgedBy(v: ModelView, ns: string, order: seq<string>): ModelView {
    match LastNamespace(v.namespaces, ns)
    case None => v
    case Some(k) =>
      ModelView(v.namespaces[k := v.namespaces[k].(pods := Left(v.namespaces[k].pods, order))],
                match v.cache case None => None case Some(cache) => Some(DropFirst(cache, NamesIn(order))))
  }

  /** The model without the named pods in one namespace, and without the first of each name in the cache. */
  ghost function Purged(v: ModelView, ns: string, names: set<string>): ModelView {
    match LastNamespace(v.namespaces, ns)
    case None => v
    case Some(k) =>
      ModelView(v.namespaces[k := v.namespaces[k].(pods := Keep(v.namespaces[k].pods, names))],
                match v.cache case None => None case Some(cache) => Some(DropFirst(cache, names)))
  }

  lemma SameLastNamespace(a: seq<NamespaceView>, b: seq<NamespaceView>, name: string)
    requires |a| == |b| && forall i :: 0 <= i < |a| ==> a[i].name == b[i].name
    ensures LastNamespace(a, name) == LastNamespace(b, name)
  {
    var k, l := LastNamespace(a, name), LastNamespace(b, name);
    if k.Some? {
      assert b[k.value].name == name;
    }
    if l.Some? {
      assert a[l.value].name == name;
    }
  }

  lemma {:induction false} CompletesInNamespace(v: ModelView, ns: string, order: seq<string>, held: set<string>)
    ensures var k := LastNamespace(v.namespaces, ns);
            Completes(v, ns, order, held) <==>
            (k.Some? && order != [] ==> v.cache.Some? && Finishes(v.namespaces[k.value].pods, order, held))
    decreases |order|
  {
    if order != [] && !Panics(v, RemovePod(order[0], ns)) {
      var next := Step(v, RemovePod(order[0], ns));
      SameLastNamespace(v.namespaces, next.namespaces, ns);
      CompletesInNamespace(next, ns, order[1..], held);
    }
  }

  /** Removing the names from the model panics in no order, whichever deletions fail, if and only if it is purgeable. */
  lemma PurgeableIsExact(v: ModelView, ns: string, names: set<string>, held: set<string>)
    ensures (forall order :: OrderOf(order, names) ==> Completes(v, ns, order, held)) <==>
            Purgeable(v, ns, names, held)
  {
    var k := LastNamespace(v.namespaces, ns);
    forall order | OrderOf(order, names)
      ensures Completes(v, ns, order, held) <==>
              (k.Some? && names != {} ==> v.cache.Some? && Finishes(v.namespaces[k.value].pods, order, held))
    {
      CompletesInNamespace(v, ns, order, held);
      assert order == [] <==> names == {} by {
        if order != [] {
          assert order[0] in names;
        }
      }
    }
    if k.Some? {
      NoOrderPanics(v.namespaces[k.value].pods, names, held);
    }
    var some := AnyOrder(names);
  }

  lemma {:induction false} LeftAppend(s: seq<Pod>, order: seq<string>, name: string)
    ensures Left(s, order + [name]) == Survivors(Left(s, order), name)
    decreases |order|
  {
    if order == [] {
      assert ([] + [name])[1..] == [];
    } else {
      assert (order + [name])[1..] == order[1..] + [name];
      LeftAppend(Survivors(s, order[0]), order[1..], name);
    }
  }

  lemma PurgeNothing(v: ModelView, ns: string)
    ensures PurgedBy(v, ns, []) == v
  {
    if LastNamespace(v.namespaces, ns).Some? {
      assert NamesIn([]) == {};
      if v.cache.Some? {
        DropNothing(v.cache.value);
      }
    }
  }

  lemma PurgedShape(v: ModelView, ns: string, order: seq<string>)
    ensures LastNamespace(PurgedBy(v, ns, order).namespaces, ns) == LastNamespace(v.namespaces, ns)
  {
    SameLastNamespace(v.namespaces, PurgedBy(v, ns, order).namespaces, ns);
  }

  /** One more removal, of whichever name that is left. */
  lemma PurgeOneMore(v: ModelView, ns: string, order: seq<string>, names: set<string>, held: set<string>, name: string)
    requires Purgeable(PurgedBy(v, ns, order), ns, names, held) && name in names && name !in order
    ensures !Panics(PurgedBy(v, ns, order), RemovePod(name, ns))
    ensures Step(PurgedBy(v, ns, order), RemovePod(name, ns)) == PurgedBy(v, ns, order + [name])
    ensures name !in held ==> Purgeable(PurgedBy(v, ns, order + [name]), ns, names - {name}, held)
  {
    var now, next := PurgedBy(v, ns, order), PurgedBy(v, ns, order + [name]);
    PurgedShape(v, ns, order);
    PurgedShape(v, ns, order + [name]);
    var k := LastNamespace(v.namespaces, ns);
    if k.Some? {
      LeftAppend(v.namespaces[k.value].pods, order, name);
      TailOnceNext(now.namespaces[k.value].pods, names, held, name);
      DropOneMore(v.cache.value, NamesIn(order), name);
      assert NamesIn(order + [name]) == NamesIn(order) + {name};
      assert now.namespaces[k.value := now.namespaces[k.value].(pods := next.namespaces[k.value].pods)]
             == next.namespaces;
    }
  }

  ghost predicate PartedIn(v: ModelView, ns: string, names: set<string>) {
    var k := LastNamespace(v.namespaces, ns);
    k.Some? ==> Parted(v.namespaces[k.value].pods, names)
  }

  /** If the pods of each name are parted in the namespace, the order does not matter. */
  lemma PurgedInAnyOrder(v: ModelView, ns: string, order: seq<string>, names: set<string>)
    requires OrderOf(order, names) && PartedIn(v, ns, names)
    ensures PurgedBy(v, ns, order) == Purged(v, ns, names)
  {
    var k := LastNamespace(v.namespaces, ns);
    assert NamesIn(order) == names;
    if k.Some? {
      KeepNothingOut(v.namespaces[k.value].pods);
      assert {} + names == names;
      LeftParted(v.namespaces[k.value].pods, {}, order, names);
    }
  }

  // ---------- What the order can decide ----------

  lemma TwoNames(s: seq<Pod>, first: string, second: string)
    ensures Left(s, [first, second]) == Survivors(Survivors(s, first), second)
    ensures Finishes(s, [first, second], {}) <==> !RangePanics(s, first) && !RangePanics(Survivors(s, first), second)
  {
    var t := Survivors(s, first);
    assert [first, second][1..] == [second] && [second][1..] == [];
    assert Left(t, [second]) == Left(Survivors(t, second), []) == Survivors(t, second);
    assert Finishes(Survivors(t, second), [], {});
    assert Finishes(t, [second], {}) <==> !RangePanics(t, second);
  }

  lemma SecondStays(p: Pod, q: Pod)
    requires p.name == q.name
    ensures Survivors([p, q], p.name) == [q] && RangePanics([p, q], p.name)
  {
    assert [p, q][2..] == [] && [p, q][..1][0].name == p.name;
  }

  /** One order finishes and the other panics. */
  lemma OrderMatters(p: Pod, q: Pod, r: Pod)
    requires p.name == q.name != r.name
    ensures Finishes([p, q, r], [p.name, r.name], {}) && Left([p, q, r], [p.name, r.name]) == [q]
    ensures !Finishes([p, q, r], [r.name, p.name], {})
  {
    assert [p, q, r] == [p, q] + [r];
    TwoNames([p, q, r], p.name, r.name);
    TwoNames([p, q, r], r.name, p.name);
    SecondStays(p, q);
    SurvivorsBack([p, q], r, p.name);
    LastGoes([p, q], r);
    LastGoes([q], r);
  }

  lemma MiddleGoes(p: Pod, r: Pod, q: Pod)
    requires p.name == q.name != r.name
    ensures Survivors([p, r, q], r.name) == [p, q]
  {
    assert [p, r, q] == [p, r] + [q] && [p, r] == [p] + [r] && [p, q] == [p] + [q];
    SurvivorsBack([p, r], q, r.name);
    LastGoes([p], r);
  }

  /** A name used twice and a panic under every order. */
  lemma EveryOrderPanics(p: Pod, r: Pod, q: Pod, order: seq<string>)
    requires p.name == q.name != r.name && OrderOf(order, {p.name, r.name})
    ensures !Finishes([p, r, q], order, {})
  {
    assert p.name in order;
    OrderRest(order, {p.name, r.name});
    if order[0] == p.name {
      assert [p, r, q][..2][0].name == p.name;
    } else {
      MiddleGoes(p, r, q);
      assert order[0] == r.name && p.name in order[1..];
      assert order[1..][0] in order[1..];
      assert [p, q][..1][0].name == p.name;
    }
  }

  /** A name used twice and no panic: a pod that stays comes after. */
  lemma NoOrderOfOnePanics(p: Pod, q: Pod, r: Pod, order: seq<string>)
    requires p.name == q.name != r.name && OrderOf(order, {p.name})
    ensures Finishes([p, q, r], order, {})
  {
    assert [p, q, r][2].name !in {p.name};
    NoOrderPanics([p, q, r], {p.name}, {});
  }

  lemma FinishesTwo(s: seq<Pod>, r: Pod, first: string, second: string)
    requires r.name !in {first, second}
    ensures var order, t := [first, second], Survivors(s, first);
            Finishes(s + [r], order, {}) && Left(s + [r], order) == Survivors(t, second) + [r]
  {
    SurvivorsBack(s, r, first);
    SurvivorsBack(Survivors(s, first), r, second);
    TwoNames(s + [r], first, second);
  }

  /** Without any panic the order still decides what is left. */
  lemma OrderDecidesWhatIsLeft(p: Pod, m: Pod, q: Pod, r: Pod)
    requires p.name == q.name != m.name && r.name !in {p.name, m.name}
    ensures var s := [p, m, q, r];
            && Finishes(s, [p.name, m.name], {}) && Left(s, [p.name, m.name]) == [r]
            && Finishes(s, [m.name, p.name], {}) && Left(s, [m.name, p.name]) == [q, r]
  {
    assert [p, m, q, r] == [p, m, q] + [r] && [q, r] == [q] + [r];
    FinishesTwo([p, m, q], r, p.name, m.name);
    FinishesTwo([p, m, q], r, m.name, p.name);
    MiddleGoes(p, m, q);
    assert [p, m, q] == [p] + [m, q] && [m, q] == [m] + [q];
    SurvivorsHead(p, [m, q], p.name);
    LastGoes([m], q);
    SecondStays(p, q);
    assert [m][..0] == [];
  }
}
