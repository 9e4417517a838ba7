/**
 Counting questions by a key: by platform for the platform list, by date
 for the growth chart. Both handlers run the same loop,
 `m[key] = (m[key] || 0) + 1` over the current user's questions; the
 object it fills is a `map` here, and the order in which keys were first
 added is kept as a sequence, as `Object.keys` would list them.
 */
module Stats {
  import opened Records
  import opened Order

  /** Which field of a question is counted. */
  datatype KeyField = ByPlatform | ByDate

  function Key(q: Question, f: KeyField): string {
    match f
    case ByPlatform => q.platform
    case ByDate => q.date
  }

  /** How many of `qs` have key `k`. */
  function Count(qs: seq<Question>, f: KeyField, k: string): nat {
    if qs == [] then 0
    else Count(qs[..|qs| - 1], f, k) + (if Key(qs[|qs| - 1], f) == k then 1 else 0)
  }

  /** The keys that occur in `qs`. */
  function KeySet(qs: seq<Question>, f: KeyField): set<string> {
    set q | q in qs :: Key(q, f)
  }

  /** What the counting loop should produce: one entry per key that occurs,
      holding the number of questions with that key. */
  function Counts(qs: seq<Question>, f: KeyField): (m: map<string, nat>) {
    map k | k in KeySet(qs, f) :: Count(qs, f, k)
  }

  /** One step of the loop: `m[k] = (m[k] || 0) + 1`. */
  function Bump(m: map<string, nat>, k: string): map<string, nat> {
    m[k := (if k in m then m[k] else 0) + 1]
  }

  lemma {:induction false} CountConcat(a: seq<Question>, b: seq<Question>, f: KeyField, k: string)
    ensures Count(a + b, f, k) == Count(a, f, k) + Count(b, f, k)
    decreases |b|
  {
    if b != [] {
      assert (a + b)[..|a + b| - 1] == a + b[..|b| - 1];
      CountConcat(a, b[..|b| - 1], f, k);
    } else {
      assert a + b == a;
    }
  }

  /** A key is counted at least once exactly when some question has it. */
  lemma {:induction false} CountPositive(qs: seq<Question>, f: KeyField, k: string)
    ensures Count(qs, f, k) > 0 <==> k in KeySet(qs, f)
    decreases |qs|
  {
    if qs != [] {
      var init, last := qs[..|qs| - 1], qs[|qs| - 1];
      assert qs == init + [last];
      CountPositive(init, f, k);
      assert KeySet(qs, f) == KeySet(init, f) + {Key(last, f)};
    }
  }

  /** One more question bumps its own key and nothing else. */
  lemma CountsSnoc(qs: seq<Question>, q: Question, f: KeyField)
    ensures Counts(qs + [q], f) == Bump(Counts(qs, f), Key(q, f))
  {
    var qs' := qs + [q];
    var m, m' := Counts(qs, f), Counts(qs', f);
    assert qs'[..|qs'| - 1] == qs;
    assert KeySet(qs', f) == KeySet(qs, f) + {Key(q, f)};
    CountPositive(qs, f, Key(q, f));
    assert m'.Keys == Bump(m, Key(q, f)).Keys;
    forall k | k in m' ensures m'[k] == Bump(m, Key(q, f))[k] {
      assert m'[k] == Count(qs, f, k) + (if Key(q, f) == k then 1 else 0);
    }
  }

  /** The sum of a map's values. */
  ghost function MapSum(m: map<string, nat>): nat
    decreases |m|
  {
    if m == map[] then 0
    else
      var k :| k in m;
      m[k] + MapSum(m - {k})
  }

  /** The sum does not depend on which key is taken first. */
  lemma {:induction false} MapSumRemove(m: map<string, nat>, k: string)
    requires k in m
    ensures MapSum(m) == m[k] + MapSum(m - {k})
    decreases |m|
  {
    var j :| j in m && MapSum(m) == m[j] + MapSum(m - {j});
    if j != k {
      MapSumRemove(m - {j}, k);
      MapSumRemove(m - {k}, j);
      assert m - {j} - {k} == m - {k} - {j};
    }
  }

  lemma MapSumBump(m: map<string, nat>, k: string)
    ensures MapSum(Bump(m, k)) == MapSum(m) + 1
  {
    var m' := Bump(m, k);
    MapSumRemove(m', k);
    if k in m {
      MapSumRemove(m, k);
      assert m' - {k} == m - {k};
    } else {
      assert m' - {k} == m;
    }
  }

  /** Over every key, the counts add up to the number of questions. */
  lemma {:induction false} CountsSum(qs: seq<Question>, f: KeyField)
    ensures MapSum(Counts(qs, f)) == |qs|
    decreases |qs|
  {
    if qs == [] {
      assert Counts(qs, f) == map[];
    } else {
      var init, last := qs[..|qs| - 1], qs[|qs| - 1];
      assert qs == init + [last];
      CountsSum(init, f);
      CountsSnoc(init, last, f);
      MapSumBump(Counts(init, f), Key(last, f));
    }
  }

  lemma CountsEmpty(f: KeyField)
    ensures Counts([], f) == map[]
  {
    assert KeySet([], f) == {};
  }

  /** The keys of `qs` in the order they first occur, each once: the order
      in which the loop adds them to the object, and the order `for ... in`
      and `Object.keys` list them. */
  function KeyList(qs: seq<Question>, f: KeyField): (r: seq<string>)
    ensures Distinct(r)
    ensures forall k :: k in r <==> k in KeySet(qs, f)
  {
    if qs == [] then []
    else
      var init, last := qs[..|qs| - 1], qs[|qs| - 1];
      var r := KeyList(init, f);
      assert qs == init + [last];
      assert KeySet(qs, f) == KeySet(init, f) + {Key(last, f)};
      if Key(last, f) in r then r else r + [Key(last, f)]
  }

  /** One pass of the counting loop: the next prefix bumps the next key and
      lists it last if it is new. */
  lemma TallyStep(qs: seq<Question>, i: nat, f: KeyField)
    requires i < |qs|
    ensures var k := Key(qs[i], f);
      && Counts(qs[..i + 1], f) == Bump(Counts(qs[..i], f), k)
      && KeyList(qs[..i + 1], f) ==
           if k in Counts(qs[..i], f) then KeyList(qs[..i], f) else KeyList(qs[..i], f) + [k]
  {
    assert qs[..i + 1] == qs[..i] + [qs[i]];
    assert qs[..i + 1][..i] == qs[..i];
    CountsSnoc(qs[..i], qs[i], f);
  }

  /** The counting loop. */
  method Tally(qs: seq<Question>, f: KeyField) returns (counts: map<string, nat>, keys: seq<string>)
    ensures counts == Counts(qs, f)
    ensures MapSum(counts) == |qs|
    ensures keys == KeyList(qs, f)
  {
    counts, keys := map[], [];
    assert qs[..0] == [];
    CountsEmpty(f);
    for i := 0 to |qs|
      invariant counts == Counts(qs[..i], f)
      invariant keys == KeyList(qs[..i], f)
    {
      var k := Key(qs[i], f);
      TallyStep(qs, i, f);
      keys := if k in counts then keys else keys + [k];
      counts := Bump(counts, k);
    }
    assert qs[..|qs|] == qs;
    CountsSum(qs, f);
  }

  /** The counting part of `updatePlatformStats`: every platform that occurs
      has an entry holding the number of its questions, no other platform
      has one (not even at zero), and the entries add up to the number of
      questions. `order` is the order `for (let key in stats)` lists the
      platforms in: the order of their first questions. */
  method PlatformStats(qs: seq<Question>) returns (stats: map<string, nat>, order: seq<string>)
    ensures stats == Counts(qs, ByPlatform)
    ensures order == KeyList(qs, ByPlatform)
    ensures forall p :: p in stats <==> exists i :: 0 <= i < |qs| && qs[i].platform == p
    ensures forall p :: p in stats ==> stats[p] == Count(qs, ByPlatform, p) > 0
    ensures MapSum(stats) == |qs|
  {
    stats, order := Tally(qs, ByPlatform);
    forall p | p in stats ensures stats[p] > 0 {
      CountPositive(qs, ByPlatform, p);
    }
    forall p ensures p in stats <==> exists i :: 0 <= i < |qs| && qs[i].platform == p {
      if p in stats {
        var q :| q in qs && Key(q, ByPlatform) == p;
        var i :| 0 <= i < |qs| && qs[i] == q;
      } else if exists i :: 0 <= i < |qs| && qs[i].platform == p {
        var i :| 0 <= i < |qs| && qs[i].platform == p;
        assert Key(qs[i], ByPlatform) in KeySet(qs, ByPlatform);
      }
    }
  }

  /** Removing the question at `i` lowers its own key's count by one and
      leaves every other count as it was; its key keeps an entry exactly when
      another question still has it. */
  lemma RemoveCounts(qs: seq<Question>, i: nat, f: KeyField)
    requires i < |qs|
    ensures var rest := qs[..i] + qs[i + 1..];
      && (forall k :: Count(rest, f, k) == Count(qs, f, k) - (if Key(qs[i], f) == k then 1 else 0))
      && (Key(qs[i], f) in Counts(rest, f) <==> Count(qs, f, Key(qs[i], f)) > 1)
  {
    var rest := qs[..i] + qs[i + 1..];
    assert qs == qs[..i] + [qs[i]] + qs[i + 1..];
    forall k ensures Count(rest, f, k) == Count(qs, f, k) - (if Key(qs[i], f) == k then 1 else 0) {
      CountConcat(qs[..i], qs[i + 1..], f, k);
      CountConcat(qs[..i] + [qs[i]], qs[i + 1..], f, k);
      CountConcat(qs[..i], [qs[i]], f, k);
      assert [qs[i]][..0] == [];
    }
    CountPositive(rest, f, Key(qs[i], f));
  }

  /** `labels.map(l => m[l])`. */
  function Lookup(ks: seq<string>, m: map<string, nat>): (r: seq<nat>)
    requires forall k :: k in ks ==> k in m
    ensures |r| == |ks| && forall i :: 0 <= i < |ks| ==> r[i] == m[ks[i]]
  {
    if ks == [] then [] else [m[ks[0]]] + Lookup(ks[1..], m)
  }

  function Sum(s: seq<nat>): nat {
    if s == [] then 0 else s[0] + Sum(s[1..])
  }

  /** Looking up keys other than `k` does not see `k`'s entry. */
  lemma LookupWithout(ks: seq<string>, m: map<string, nat>, k: string)
    requires k !in ks && forall j :: j in ks ==> j in m
    ensures Lookup(ks, m) == Lookup(ks, m - {k})
  {
  }

  /** Looking up each key of a map once, in any order, and adding up what is
      found gives the sum of the map. */
  lemma {:induction false} LookupSum(ks: seq<string>, m: map<string, nat>)
    requires Distinct(ks) && forall k :: k in ks <==> k in m
    ensures Sum(Lookup(ks, m)) == MapSum(m)
    decreases |ks|
  {
    if ks == [] {
      assert m.Keys == {};
    } else {
      var k, rest := ks[0], ks[1..];
      DistinctTail(ks);
      LookupWithout(rest, m, k);
      LookupSum(rest, m - {k});
      MapSumRemove(m, k);
    }
  }
}
