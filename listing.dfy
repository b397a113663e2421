/** The display order of `list_tasks`: the stored tasks sorted by the key
    (done, lower-cased text), unfinished tasks first, with Python's stable
    `sorted`, so that tasks with equal keys keep their storage order. */
module Listing {
  import opened Tasks

  /** `str.lower` restricted to ASCII letters. */
  function LowerChar(c: char): (l: char)
    ensures 'A' <= c <= 'Z' ==> 'a' <= l <= 'z' && l as int == c as int + 32
    ensures !('A' <= c <= 'Z') ==> l == c
  {
    if 'A' <= c <= 'Z' then (c as int + 32) as char else c
  }

  function Lower(s: string): (r: string)
    ensures |r| == |s|
    ensures forall i :: 0 <= i < |s| ==> r[i] == LowerChar(s[i])
  {
    seq(|s|, i requires 0 <= i < |s| => LowerChar(s[i]))
  }

  /** Python's `<=` on strings: lexicographic by code point, a proper
      prefix before the longer string. */
  predicate TextLe(a: string, b: string)
  {
    if |a| == 0 then true
    else if |b| == 0 then false
    else if a[0] != b[0] then a[0] < b[0]
    else TextLe(a[1..], b[1..])
  }

  /** The key of the `sorted` call: the tuple (done, text.lower()). */
  datatype SortKey = SortKey(done: bool, text: string)

  function KeyOf(t: Task): SortKey
  {
    SortKey(t.done, Lower(t.text))
  }

  /** Python's `<=` on the key tuples: False before True, then the text. */
  predicate KeyLe(a: SortKey, b: SortKey)
  {
    if a.done != b.done then !a.done else TextLe(a.text, b.text)
  }

  lemma {:induction false} TextLeReflexive(a: string)
    ensures TextLe(a, a)
  {
    if |a| > 0 {
      TextLeReflexive(a[1..]);
    }
  }

  lemma {:induction false} TextLeTotal(a: string, b: string)
    ensures TextLe(a, b) || TextLe(b, a)
  {
    if |a| > 0 && |b| > 0 && a[0] == b[0] {
      TextLeTotal(a[1..], b[1..]);
    }
  }

  lemma {:induction false} TextLeAntisymmetric(a: string, b: string)
    requires TextLe(a, b) && TextLe(b, a)
    ensures a == b
  {
    if |a| > 0 && |b| > 0 {
      TextLeAntisymmetric(a[1..], b[1..]);
      assert a == [a[0]] + a[1..] && b == [b[0]] + b[1..];
    }
  }

  lemma {:induction false} TextLeTransitive(a: string, b: string, c: string)
    requires TextLe(a, b) && TextLe(b, c)
    ensures TextLe(a, c)
  {
    if |a| > 0 && |b| > 0 && |c| > 0 && a[0] == b[0] == c[0] {
      TextLeTransitive(a[1..], b[1..], c[1..]);
    }
  }

  /** The key order is a total order: `sorted` is well defined on any list. */
  lemma KeyLeTotalOrder(a: SortKey, b: SortKey, c: SortKey)
    ensures KeyLe(a, a)
    ensures KeyLe(a, b) || KeyLe(b, a)
    ensures KeyLe(a, b) && KeyLe(b, a) ==> a == b
    ensures KeyLe(a, b) && KeyLe(b, c) ==> KeyLe(a, c)
  {
    TextLeReflexive(a.text);
    TextLeTotal(a.text, b.text);
    if KeyLe(a, b) && KeyLe(b, a) {
      TextLeAntisymmetric(a.text, b.text);
    }
    if KeyLe(a, b) && KeyLe(b, c) && a.done == b.done == c.done {
      TextLeTransitive(a.text, b.text, c.text);
    }
  }

  /** Every task is listed no later than every task after it in the view. */
  ghost predicate SortedByKey(s: seq<Task>)
  {
    forall i, j :: 0 <= i < j < |s| ==> KeyLe(KeyOf(s[i]), KeyOf(s[j]))
  }

  /** The tasks of `s` whose key is `k`, in the order of `s`. */
  function WithKey(s: seq<Task>, k: SortKey): seq<Task>
  {
    if s == [] then []
    else (if KeyOf(s[0]) == k then [s[0]] else []) + WithKey(s[1..], k)
  }

  /** `t` placed before the first task of `s` whose key is not smaller:
      ahead of every task with an equal key. */
  function InsertByKey(t: Task, s: seq<Task>): seq<Task>
  {
    if s == [] || KeyLe(KeyOf(t), KeyOf(s[0])) then [t] + s
    else [s[0]] + InsertByKey(t, s[1..])
  }

  /** The list `sorted(items, key=lambda x: (x["done"], x["text"].lower()))`
      returns: a stable insertion sort on the key. */
  function SortedView(items: seq<Task>): seq<Task>
  {
    if items == [] then [] else InsertByKey(items[0], SortedView(items[1..]))
  }

  lemma {:induction false} InsertByKeyPermutes(t: Task, s: seq<Task>)
    ensures multiset(InsertByKey(t, s)) == multiset(s) + multiset{t}
  {
    if s != [] && !KeyLe(KeyOf(t), KeyOf(s[0])) {
      InsertByKeyPermutes(t, s[1..]);
      assert s == [s[0]] + s[1..];
    }
  }

  lemma {:induction false} InsertByKeySorted(t: Task, s: seq<Task>)
    requires SortedByKey(s)
    ensures SortedByKey(InsertByKey(t, s))
  {
    var r := InsertByKey(t, s);
    if s == [] || KeyLe(KeyOf(t), KeyOf(s[0])) {
      forall i, j | 0 <= i < j < |r|
        ensures KeyLe(KeyOf(r[i]), KeyOf(r[j]))
      {
        if i == 0 {
          KeyLeTotalOrder(KeyOf(t), KeyOf(s[0]), KeyOf(s[j - 1]));
        }
      }
    } else {
      var rest := InsertByKey(t, s[1..]);
      InsertByKeySorted(t, s[1..]);
      InsertByKeyPermutes(t, s[1..]);
      KeyLeTotalOrder(KeyOf(t), KeyOf(s[0]), KeyOf(s[0]));
      forall j | 0 <= j < |rest|
        ensures KeyLe(KeyOf(s[0]), KeyOf(rest[j]))
      {
        assert rest[j] in multiset(rest);
        assert rest[j] == t || rest[j] in multiset(s[1..]);
        if rest[j] != t {
          var m :| 0 <= m < |s[1..]| && s[1..][m] == rest[j];
          assert s[m + 1] == rest[j];
        }
      }
      forall i, j | 0 <= i < j < |r|
        ensures KeyLe(KeyOf(r[i]), KeyOf(r[j]))
      {
        if i > 0 {
          assert r[i] == rest[i - 1] && r[j] == rest[j - 1];
        }
      }
    }
  }

  lemma {:induction false} WithKeyInsert(t: Task, s: seq<Task>, k: SortKey)
    ensures WithKey(InsertByKey(t, s), k) == WithKey([t] + s, k)
  {
    if s != [] && !KeyLe(KeyOf(t), KeyOf(s[0])) {
      KeyLeTotalOrder(KeyOf(t), KeyOf(s[0]), KeyOf(s[0]));
      WithKeyInsert(t, s[1..], k);
      var r := InsertByKey(t, s);
      assert r[1..] == InsertByKey(t, s[1..]);
      assert ([t] + s)[1..] == s;
      assert ([t] + s[1..])[1..] == s[1..];
      assert ([s[0]] + ([t] + s[1..]))[1..] == [t] + s[1..];
    }
  }

  /** The listing is ordered by the key. */
  lemma {:induction false} SortedViewSorted(items: seq<Task>)
    ensures SortedByKey(SortedView(items))
  {
    if items != [] {
      SortedViewSorted(items[1..]);
      InsertByKeySorted(items[0], SortedView(items[1..]));
    }
  }

  /** The listing shows every stored task, as often as it is stored, and nothing else. */
  lemma {:induction false} SortedViewPermutes(items: seq<Task>)
    ensures multiset(SortedView(items)) == multiset(items)
  {
    if items != [] {
      SortedViewPermutes(items[1..]);
      InsertByKeyPermutes(items[0], SortedView(items[1..]));
      assert items == [items[0]] + items[1..];
    }
  }

  /** Stability: tasks with equal keys appear in storage order. */
  lemma {:induction false} SortedViewStable(items: seq<Task>, k: SortKey)
    ensures WithKey(SortedView(items), k) == WithKey(items, k)
  {
    if items != [] {
      SortedViewStable(items[1..], k);
      WithKeyInsert(items[0], SortedView(items[1..]), k);
      var v := SortedView(items[1..]);
      assert ([items[0]] + v)[1..] == v;
    }
  }

  lemma {:induction false} WithKeyMember(s: seq<Task>, k: SortKey, x: Task)
    ensures x in WithKey(s, k) <==> x in s && KeyOf(x) == k
  {
    if s != [] {
      WithKeyMember(s[1..], k, x);
      assert s == [s[0]] + s[1..];
    }
  }

  lemma SortedTail(a: seq<Task>)
    requires a != [] && SortedByKey(a)
    ensures SortedByKey(a[1..])
  {
    forall i, j | 0 <= i < j < |a[1..]|
      ensures KeyLe(KeyOf(a[1..][i]), KeyOf(a[1..][j]))
    {
      assert a[1..][i] == a[i + 1] && a[1..][j] == a[j + 1];
    }
  }

  /** In a key-sorted list no task has a smaller key than the first. */
  lemma SortedHeadIsLeast(a: seq<Task>, x: Task)
    requires SortedByKey(a) && x in a
    ensures KeyLe(KeyOf(a[0]), KeyOf(x))
  {
    var m :| 0 <= m < |a| && a[m] == x;
    if m == 0 {
      KeyLeTotalOrder(KeyOf(x), KeyOf(x), KeyOf(x));
    }
  }

  /** The first task of a list is the first one listed under its own key. */
  lemma WithKeyOfHead(s: seq<Task>)
    requires s != []
    ensures WithKey(s, KeyOf(s[0])) == [s[0]] + WithKey(s[1..], KeyOf(s[0]))
  {
  }

  /** The first task of `a` is also in any list that agrees with `a` on its key. */
  lemma HeadInSameKeyed(a: seq<Task>, b: seq<Task>)
    requires a != []
    requires WithKey(a, KeyOf(a[0])) == WithKey(b, KeyOf(a[0]))
    ensures a[0] in b
  {
    WithKeyOfHead(a);
    WithKeyMember(b, KeyOf(a[0]), a[0]);
  }

  /** Two non-empty lists whose first tasks have the same key, and which
      agree on that key, start with the same task. */
  lemma SameKeyedHeads(a: seq<Task>, b: seq<Task>)
    requires a != [] && b != []
    requires KeyOf(a[0]) == KeyOf(b[0])
    requires WithKey(a, KeyOf(a[0])) == WithKey(b, KeyOf(a[0]))
    ensures a[0] == b[0]
  {
    WithKeyOfHead(a);
    WithKeyOfHead(b);
    assert WithKey(a, KeyOf(a[0]))[0] == a[0];
    assert WithKey(b, KeyOf(b[0]))[0] == b[0];
  }

  /** Removing the same first task from two lists that agree key by key
      leaves lists that still agree on key `k`. */
  lemma SameKeyedTails(a: seq<Task>, b: seq<Task>, k: SortKey)
    requires a != [] && b != [] && a[0] == b[0]
    requires WithKey(a, k) == WithKey(b, k)
    ensures WithKey(a[1..], k) == WithKey(b[1..], k)
  {
    if KeyOf(a[0]) == k {
      assert WithKey(a, k)[1..] == WithKey(a[1..], k);
      assert WithKey(b, k)[1..] == WithKey(b[1..], k);
    } else {
      assert WithKey(a, k) == [] + WithKey(a[1..], k) == WithKey(a[1..], k);
      assert WithKey(b, k) == [] + WithKey(b[1..], k) == WithKey(b[1..], k);
    }
  }

  /** Two key-sorted lists that agree, key by key, on which tasks they hold
      and in what order are the same list. */
  lemma {:induction false} SameKeyedSortedEqual(a: seq<Task>, b: seq<Task>)
    requires SortedByKey(a) && SortedByKey(b)
    requires forall k :: WithKey(a, k) == WithKey(b, k)
    ensures a == b
    decreases |a| + |b|
  {
    if a == [] && b != [] {
      WithKeyOfHead(b);
      assert false;
    } else if a != [] && b == [] {
      WithKeyOfHead(a);
      assert false;
    } else if a != [] && b != [] {
      HeadInSameKeyed(a, b);
      HeadInSameKeyed(b, a);
      SortedHeadIsLeast(b, a[0]);
      SortedHeadIsLeast(a, b[0]);
      KeyLeTotalOrder(KeyOf(a[0]), KeyOf(b[0]), KeyOf(a[0]));
      SameKeyedHeads(a, b);
      forall k
        ensures WithKey(a[1..], k) == WithKey(b[1..], k)
      {
        SameKeyedTails(a, b, k);
      }
      SortedTail(a);
      SortedTail(b);
      SameKeyedSortedEqual(a[1..], b[1..]);
      assert a == [a[0]] + a[1..] && b == [b[0]] + b[1..];
    }
  }

  /** The listing is the only key-sorted arrangement that keeps storage order
      among equal keys: it is exactly what a stable sort on the key returns. */
  lemma SortedViewIsTheStableSort(items: seq<Task>, r: seq<Task>)
    requires SortedByKey(r)
    requires forall k :: WithKey(r, k) == WithKey(items, k)
    ensures r == SortedView(items)
  {
    SortedViewSorted(items);
    forall k
      ensures WithKey(r, k) == WithKey(SortedView(items), k)
    {
      SortedViewStable(items, k);
    }
    SameKeyedSortedEqual(r, SortedView(items));
  }
}
