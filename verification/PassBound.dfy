/**
 The deep inner loop terminates, whatever other threads do meanwhile.

 A pass looks only at the objects of its re-check set. Under arbitrary concurrent mutators the
 outcome of an update is unpredictable, but it is confined: `Pass` lists what is possible.
 */
module PassBound {

  type Key = nat

  /** What the collector tracks, and whose back reference it has never cleared. */
  datatype Tracking = Tracking(inDefault: set<Key>, inReCheck: set<Key>, uncut: set<Key>)

  function Tracked(v: Tracking): set<Key> { v.inDefault + v.inReCheck }

  ghost predicate WellFormed(v: Tracking) { v.inDefault !! v.inReCheck && v.uncut <= Tracked(v) }

  /**
   One pass over the re-check set `todo`. An object in the default state leaves the set or is
   re-checked next. An object being re-checked leaves the set, is freed, or stays because its back
   reference was cleared just now. Only a pass that frees something finds `dropped` objects.
   */
  ghost predicate Pass(v: Tracking, todo: set<Key>, v': Tracking, todo': set<Key>, freed: set<Key>, dropped: set<Key>) {
    && WellFormed(v) && WellFormed(v')
    && freed <= todo && freed <= v.inReCheck
    && Tracked(v') == Tracked(v) - freed
    && v'.uncut <= v.uncut - freed
    && (forall o :: o in v'.inReCheck && o !in todo ==> o in v.inReCheck)
    && (forall o :: o in v'.inReCheck && o in todo && o in v.inReCheck ==> o in v.uncut && o !in v'.uncut)
    && todo' <= (todo * v'.inReCheck) + dropped
    && (freed == {} ==> dropped == {})
  }

  function Level(v: Tracking, todo: set<Key>): nat {
    if todo * v.inDefault != {} then 2 else if todo != {} then 1 else 0
  }

  function Measure(v: Tracking, todo: set<Key>): nat {
    2 * |Tracked(v)| + 2 * |v.uncut| + Level(v, todo)
  }

  lemma SubsetSmaller(a: set<Key>, b: set<Key>)
    requires a <= b
    ensures |a| <= |b|
    ensures a != b ==> |a| < |b|
  {
    assert b == a + (b - a);
    assert |b| == |a| + |b - a|;
  }

  lemma PassDecreases(v: Tracking, todo: set<Key>, v': Tracking, todo': set<Key>, freed: set<Key>, dropped: set<Key>)
    requires Pass(v, todo, v', todo', freed, dropped) && todo != {}
    ensures Measure(v', todo') < Measure(v, todo)
  {
    SubsetSmaller(Tracked(v'), Tracked(v));
    SubsetSmaller(v'.uncut, v.uncut);
    if freed != {} {
      assert Tracked(v') != Tracked(v);
    } else if v'.uncut == v.uncut {
      forall o | o in todo' ensures o in todo && o in v'.inReCheck && o in v.inDefault {
        assert o in Tracked(v');
      }
    }
  }

  ghost predicate SomePass(v: Tracking, todo: set<Key>, v': Tracking, todo': set<Key>) {
    exists freed, dropped :: Pass(v, todo, v', todo', freed, dropped)
  }

  lemma SomePassDecreases(v: Tracking, todo: set<Key>, v': Tracking, todo': set<Key>)
    requires SomePass(v, todo, v', todo') && todo != {}
    ensures Measure(v', todo') < Measure(v, todo)
  {
    var freed, dropped :| Pass(v, todo, v', todo', freed, dropped);
    PassDecreases(v, todo, v', todo', freed, dropped);
  }

  /** After the first pass the measure is bounded by what was tracked before it. */
  lemma PassShrinks(v: Tracking, todo: set<Key>, v': Tracking, todo': set<Key>)
    requires SomePass(v, todo, v', todo')
    ensures Measure(v', todo') <= 4 * |Tracked(v)| + 2
  {
    SubsetSmaller(Tracked(v'), Tracked(v));
    SubsetSmaller(v'.uncut, Tracked(v'));
  }

  /** A deep update: passes follow each other for as long as there is something to re-check. */
  ghost predicate IsDeepUpdate(vs: seq<Tracking>, todos: seq<set<Key>>) {
    && |vs| == |todos| > 0
    && WellFormed(vs[0])
    && forall k :: 0 <= k < |vs| - 1 ==>
         todos[k] != {} && SomePass(vs[k], todos[k], vs[k + 1], todos[k + 1])
  }

  lemma {:induction false} MeasureBounds(vs: seq<Tracking>, todos: seq<set<Key>>, k: nat)
    requires IsDeepUpdate(vs, todos) && k < |vs|
    ensures Measure(vs[k], todos[k]) + k <= Measure(vs[0], todos[0])
  {
    if k > 0 {
      MeasureBounds(vs, todos, k - 1);
      assert SomePass(vs[k - 1], todos[k - 1], vs[k - 1 + 1], todos[k - 1 + 1]);
      SomePassDecreases(vs[k - 1], todos[k - 1], vs[k], todos[k]);
    }
  }

  /** With `n` objects tracked, at most 4n + 2 passes follow, so 24999 objects stay below the cap of 100000. */
  lemma DeepLoopBound(vs: seq<Tracking>, todos: seq<set<Key>>)
    requires IsDeepUpdate(vs, todos)
    ensures |vs| - 1 <= 4 * |Tracked(vs[0])| + 2
    ensures |Tracked(vs[0])| <= 24999 ==> |vs| - 1 < 100000
  {
    MeasureBounds(vs, todos, |vs| - 1);
    SubsetSmaller(vs[0].uncut, Tracked(vs[0]));
  }
}
