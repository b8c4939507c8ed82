/**
 The task store: a Python dict from day key to a list of task texts, modelled
 as an association list in the dict's insertion order, with the dict
 operations the widget uses (milestone.py:31, 92-93, 97-103, 108).
 */
module TaskStore {
  import opened Wrappers
  import opened PyText
  import opened Grid

  /** One dict item: a day key and its tasks, oldest first. */
  datatype Entry = Entry(key: string, tasks: seq<string>)

  /** Items in insertion order. */
  type Store = seq<Entry>

  /** A dict never holds a key twice. */
  predicate Distinct(s: Store) {
    forall i, j :: 0 <= i < j < |s| ==> s[i].key != s[j].key
  }

  /** `list(tasks.keys())`. */
  function Keys(s: Store): (ks: seq<string>)
    ensures |ks| == |s|
    ensures forall i :: 0 <= i < |s| ==> ks[i] == s[i].key
    decreases |s|
  {
    if s == [] then [] else [s[0].key] + Keys(s[1..])
  }

  /** `tasks[k]` when `k` is present, `None` for the `KeyError` case. */
  function Lookup(s: Store, k: string): (r: Option<seq<string>>)
    ensures r.None? <==> k !in Keys(s)
    decreases |s|
  {
    if s == [] then None
    else if s[0].key == k then Some(s[0].tasks)
    else
      KeysTail(s);
      Lookup(s[1..], k)
  }

  /** `tasks.get(k, [])`. */
  function Get(s: Store, k: string): seq<string> {
    Lookup(s, k).GetOr([])
  }

  /** Every task text over all days, day by day in key order. */
  function AllTasks(s: Store): seq<string>
    decreases |s|
  {
    if s == [] then [] else s[0].tasks + AllTasks(s[1..])
  }

  lemma KeysTail(s: Store)
    requires s != []
    ensures Keys(s) == [s[0].key] + Keys(s[1..])
  {
  }

  /** In a dict, looking up the key of an item gives that item's tasks. */
  lemma {:induction false} LookupAt(s: Store, i: nat)
    requires Distinct(s) && i < |s|
    ensures Lookup(s, s[i].key) == Some(s[i].tasks)
    decreases i
  {
    if i > 0 {
      LookupAt(s[1..], i - 1);
    }
  }

  /** `tasks.setdefault(k, []).extend(items)`. */
  function Extend(s: Store, k: string, items: seq<string>): Store
    decreases |s|
  {
    if s == [] then [Entry(k, items)]
    else if s[0].key == k then [Entry(k, s[0].tasks + items)] + s[1..]
    else [s[0]] + Extend(s[1..], k, items)
  }

  lemma {:induction false} ExtendLookupSame(s: Store, k: string, items: seq<string>)
    ensures Lookup(Extend(s, k, items), k) == Some(Get(s, k) + items)
    decreases |s|
  {
    if s == [] {
      assert Get(s, k) + items == items;
    } else if s[0].key != k {
      ExtendLookupSame(s[1..], k, items);
      var r := Extend(s, k, items);
      assert r[1..] == Extend(s[1..], k, items);
      assert Lookup(r, k) == Lookup(r[1..], k);
    }
  }

  lemma {:induction false} ExtendLookupOther(s: Store, k: string, items: seq<string>, other: string)
    requires other != k
    ensures Lookup(Extend(s, k, items), other) == Lookup(s, other)
    decreases |s|
  {
    var r := Extend(s, k, items);
    if s == [] {
      assert r[1..] == [];
    } else if s[0].key == k {
      assert r[1..] == s[1..];
    } else {
      ExtendLookupOther(s[1..], k, items, other);
      assert r[1..] == Extend(s[1..], k, items);
    }
  }

  lemma {:induction false} ExtendKeys(s: Store, k: string, items: seq<string>)
    ensures Keys(Extend(s, k, items)) == if k in Keys(s) then Keys(s) else Keys(s) + [k]
    decreases |s|
  {
    var r := Extend(s, k, items);
    if s == [] {
      assert Keys(r) == [k];
    } else if s[0].key == k {
      assert r[1..] == s[1..];
      KeysTail(r);
      KeysTail(s);
    } else {
      ExtendKeys(s[1..], k, items);
      assert r[1..] == Extend(s[1..], k, items);
      KeysTail(r);
      KeysTail(s);
      assert k in Keys(s) <==> k in Keys(s[1..]);
      if k !in Keys(s) {
        assert Keys(r) == [s[0].key] + (Keys(s[1..]) + [k]);
      }
    }
  }

  /**
   What `setdefault(k, []).extend(items)` promises: `items` go after whatever
   `k` already held, a missing `k` is added at the end of the key order, and
   every other key keeps its place and its tasks.
   */
  lemma ExtendSpec(s: Store, k: string, items: seq<string>)
    ensures Lookup(Extend(s, k, items), k) == Some(Get(s, k) + items)
    ensures forall k' :: k' != k ==> Lookup(Extend(s, k, items), k') == Lookup(s, k')
    ensures Keys(Extend(s, k, items)) == if k in Keys(s) then Keys(s) else Keys(s) + [k]
  {
    ExtendLookupSame(s, k, items);
    forall k' | k' != k ensures Lookup(Extend(s, k, items), k') == Lookup(s, k') {
      ExtendLookupOther(s, k, items, k');
    }
    ExtendKeys(s, k, items);
  }

  /** Two stores with the same key list, or one more new key at the end, are both dicts. */
  lemma DistinctByKeys(s: Store, t: Store, k: string)
    requires Distinct(s)
    requires Keys(t) == Keys(s) || (k !in Keys(s) && Keys(t) == Keys(s) + [k])
    ensures Distinct(t)
  {
    forall i, j | 0 <= i < j < |t| ensures t[i].key != t[j].key {
      assert t[i].key == Keys(t)[i] && t[j].key == Keys(t)[j];
      if j >= |s| {
        assert Keys(t)[i] == Keys(s)[i];
      } else {
        assert Keys(t)[i] == s[i].key && Keys(t)[j] == s[j].key;
      }
    }
  }

  /** Extending a dict leaves its keys distinct. */
  lemma ExtendDistinct(s: Store, k: string, items: seq<string>)
    ensures Distinct(s) ==> Distinct(Extend(s, k, items))
  {
    if Distinct(s) {
      ExtendSpec(s, k, items);
      DistinctByKeys(s, Extend(s, k, items), k);
    }
  }

  /** Extending adds exactly the new tasks to the store's contents. */
  lemma {:induction false} ExtendAllTasks(s: Store, k: string, items: seq<string>)
    ensures multiset(AllTasks(Extend(s, k, items))) == multiset(AllTasks(s)) + multiset(items)
    decreases |s|
  {
    var r := Extend(s, k, items);
    if s == [] {
      assert r[1..] == [];
      assert AllTasks(r) == items + [];
    } else if s[0].key == k {
      assert r[1..] == s[1..];
      assert AllTasks(r) == (s[0].tasks + items) + AllTasks(s[1..]);
    } else {
      ExtendAllTasks(s[1..], k, items);
      assert r[1..] == Extend(s[1..], k, items);
    }
  }

  /** `del tasks[k]`. */
  function Delete(s: Store, k: string): Store
    decreases |s|
  {
    if s == [] then []
    else if s[0].key == k then Delete(s[1..], k)
    else [s[0]] + Delete(s[1..], k)
  }

  /**
   What `del tasks[k]` promises to lookups: `k` is gone, and every other key
   keeps its tasks. `DeleteMiddle` states that the other keys keep their order.
   */
  lemma {:induction false} DeleteSpec(s: Store, k: string)
    ensures Lookup(Delete(s, k), k) == None
    ensures forall k' :: k' != k ==> Lookup(Delete(s, k), k') == Lookup(s, k')
    decreases |s|
  {
    if s != [] {
      DeleteSpec(s[1..], k);
      var r := Delete(s, k);
      if s[0].key != k {
        assert r[1..] == Delete(s[1..], k);
      }
    }
  }

  /** Deleting a key the store does not hold changes nothing. */
  lemma {:induction false} DeleteAbsent(s: Store, k: string)
    requires k !in Keys(s)
    ensures Delete(s, k) == s
    decreases |s|
  {
    if s != [] {
      KeysTail(s);
      DeleteAbsent(s[1..], k);
    }
  }

  /** Deleting from a concatenation deletes from both halves. */
  lemma {:induction false} DeleteConcat(a: Store, b: Store, k: string)
    ensures Delete(a + b, k) == Delete(a, k) + Delete(b, k)
    decreases |a|
  {
    if a != [] {
      DeleteConcat(a[1..], b, k);
      assert (a + b)[1..] == a[1..] + b;
      if a[0].key != k {
        assert [a[0]] + Delete(a[1..], k) + Delete(b, k) == [a[0]] + (Delete(a[1..], k) + Delete(b, k));
      }
    } else {
      assert a + b == b;
    }
  }

  lemma KeyOfItem(s: Store, k: string)
    ensures k in Keys(s) <==> exists e :: e in s && e.key == k
  {
    if k in Keys(s) {
      var i :| 0 <= i < |s| && Keys(s)[i] == k;
      assert s[i] in s;
    }
  }

  lemma {:induction false} LookupConcat(a: Store, c: Store, k: string)
    ensures Lookup(a + c, k) == if k in Keys(a) then Lookup(a, k) else Lookup(c, k)
    decreases |a|
  {
    if a == [] {
      assert a + c == c;
    } else {
      var ac := a + c;
      assert ac[0] == a[0];
      assert ac[1..] == a[1..] + c;
      KeysTail(a);
      if a[0].key != k {
        LookupConcat(a[1..], c, k);
        assert Lookup(ac, k) == Lookup(a[1..] + c, k);
      }
    }
  }

  lemma {:induction false} ExtendTwice(s: Store, k: string, x: seq<string>, y: seq<string>)
    ensures Extend(Extend(s, k, x), k, y) == Extend(s, k, x + y)
    decreases |s|
  {
    if s == [] {
      assert Extend(s, k, x) == [Entry(k, x)];
    } else if s[0].key == k {
      assert s[0].tasks + x + y == s[0].tasks + (x + y);
    } else {
      ExtendTwice(s[1..], k, x, y);
    }
  }

  lemma {:induction false} DeleteExtend(s: Store, k: string, gone: string, x: seq<string>)
    requires k != gone
    ensures Delete(Extend(s, k, x), gone) == Extend(Delete(s, gone), k, x)
    decreases |s|
  {
    if s != [] && s[0].key != k {
      DeleteExtend(s[1..], k, gone, x);
    }
  }

  lemma DeleteHead(e: Entry, c: Store)
    ensures Delete([e] + c, e.key) == Delete(c, e.key)
  {
    var ec := [e] + c;
    assert ec[0] == e && ec[1..] == c;
  }

  /** Deleting a key held by exactly one item of a dict removes just that item. */
  lemma DeleteMiddle(a: Store, e: Entry, c: Store)
    requires e.key !in Keys(a) && e.key !in Keys(c)
    ensures Delete(a + [e] + c, e.key) == a + c
  {
    var k := e.key;
    assert a + [e] + c == a + ([e] + c);
    DeleteConcat(a, [e] + c, k);
    DeleteAbsent(a, k);
    DeleteHead(e, c);
    DeleteAbsent(c, k);
  }

  /** The key of today's list: `str(day_of_year)`. */
  function TodayKey(today: DayOfYear): string {
    NatToString(today)
  }

  /** `tasks.get(str(day_of_year), [])`: the list the task panel shows, in order. */
  function TodayTasks(s: Store, today: DayOfYear): seq<string> {
    Get(s, TodayKey(today))
  }

  /**
   `add_task`: the entry text is stripped; whitespace-only text changes
   nothing, any other text is appended at the end of today's list, which is
   created (last in key order) if missing. No other key changes.
   */
  function AddTask(s: Store, text: string, today: DayOfYear): (r: Store)
    ensures AllSpace(text, StrSpaces) ==> r == s
    ensures !AllSpace(text, StrSpaces) ==> TodayTasks(r, today) == TodayTasks(s, today) + [Strip(text)]
    ensures forall k :: k != TodayKey(today) ==> Lookup(r, k) == Lookup(s, k)
    ensures Keys(r) == if AllSpace(text, StrSpaces) || TodayKey(today) in Keys(s) then Keys(s) else Keys(s) + [TodayKey(today)]
    ensures Distinct(s) ==> Distinct(r)
  {
    var taskText := Strip(text);
    if taskText != [] then
      ExtendSpec(s, TodayKey(today), [taskText]);
      ExtendDistinct(s, TodayKey(today), [taskText]);
      Extend(s, TodayKey(today), [taskText])
    else s
  }
}
