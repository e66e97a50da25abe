/** The list view: the title-sort toggle, the sorted projection of the
    store's tasks, and the choice between the loading notice, the error
    message and the list. */
module TasksList {
  import opened Interfaces

  // ---------------------------------------------------------------------
  // String order

  /** JavaScript's `<` on two strings: lexicographic by character code. */
  predicate StringLess(a: string, b: string)
    ensures StringLess(a, b) ==> a != b
    ensures |a| < |b| && a == b[..|a|] ==> StringLess(a, b)
  {
    if a == [] then b != []
    else if b == [] then false
    else if a[0] != b[0] then a[0] < b[0]
    else StringLess(a[1..], b[1..])
  }

  lemma {:induction false} StringLessIrreflexive(a: string)
    ensures !StringLess(a, a)
  {
    if a != [] { StringLessIrreflexive(a[1..]); }
  }

  lemma {:induction false} StringLessAsymmetric(a: string, b: string)
    ensures !(StringLess(a, b) && StringLess(b, a))
  {
    if a != [] && b != [] && a[0] == b[0] { StringLessAsymmetric(a[1..], b[1..]); }
  }

  lemma {:induction false} StringLessTotal(a: string, b: string)
    ensures a == b || StringLess(a, b) || StringLess(b, a)
  {
    if a != [] && b != [] && a[0] == b[0] {
      StringLessTotal(a[1..], b[1..]);
      assert a == [a[0]] + a[1..] && b == [b[0]] + b[1..];
    }
  }

  lemma {:induction false} StringLessTransitive(a: string, b: string, c: string)
    requires StringLess(a, b) && StringLess(b, c)
    ensures StringLess(a, c)
  {
    if a != [] && b != [] && c != [] && a[0] == b[0] && b[0] == c[0] {
      StringLessTransitive(a[1..], b[1..], c[1..]);
    }
  }

  // ---------------------------------------------------------------------
  // The comparator

  datatype SortKey = TitleKey
  datatype Direction = Ascending | Descending
  datatype SortConfig = SortConfig(key: SortKey, direction: Direction)

  /** Every task has a title; JavaScript's `<` and `>` give no order on absent ones. */
  predicate HasTitles(ts: seq<Task>)
  {
    forall t :: t in ts ==> t.title.Some?
  }

  /** The comparator handed to `sort`, on the title. */
  function Compare(d: Direction, a: Task, b: Task): (r: int)
    requires a.title.Some? && b.title.Some?
    ensures r == 0 <==> a.title == b.title
    ensures d == Ascending ==> (r < 0 <==> StringLess(a.title.value, b.title.value))
    ensures d == Descending ==> (r < 0 <==> StringLess(b.title.value, a.title.value))
  {
    var x, y := a.title.value, b.title.value;
    StringLessTotal(x, y);
    StringLessIrreflexive(x);
    StringLessAsymmetric(x, y);
    if StringLess(x, y) then (if d == Ascending then -1 else 1)
    else if StringLess(y, x) then (if d == Ascending then 1 else -1)
    else 0
  }

  lemma CompareAntisymmetric(d: Direction, a: Task, b: Task)
    requires a.title.Some? && b.title.Some?
    ensures Compare(d, a, b) == -Compare(d, b, a)
  {
    StringLessAsymmetric(a.title.value, b.title.value);
  }

  lemma CompareTransitive(d: Direction, a: Task, b: Task, c: Task)
    requires a.title.Some? && b.title.Some? && c.title.Some?
    requires Compare(d, a, b) <= 0 && Compare(d, b, c) <= 0
    ensures Compare(d, a, c) <= 0
  {
    var x, y, z := a.title.value, b.title.value, c.title.value;
    StringLessTotal(x, y);
    StringLessTotal(y, z);
    StringLessTotal(x, z);
    StringLessAsymmetric(x, z);
    if d == Ascending {
      if StringLess(x, y) && StringLess(y, z) { StringLessTransitive(x, y, z); }
    } else {
      if StringLess(y, x) && StringLess(z, y) { StringLessTransitive(z, y, x); }
    }
  }

  // ---------------------------------------------------------------------
  // Stable sort with that comparator

  /** Inserts `x` before the first task that does not compare strictly below it. */
  function Insert(d: Direction, x: Task, r: seq<Task>): (u: seq<Task>)
    requires x.title.Some? && HasTitles(r)
    ensures multiset(u) == multiset(r) + multiset{x}
    ensures HasTitles(u)
  {
    if r == [] then [x]
    else if Compare(d, r[0], x) < 0 then
      assert r == [r[0]] + r[1..];
      var u := [r[0]] + Insert(d, x, r[1..]);
      assert forall t :: t in u ==> t in multiset(u);
      u
    else
      var u := [x] + r;
      assert forall t :: t in u ==> t in multiset(u);
      u
  }

  /** A stable sort by `Compare`, as `Array.prototype.sort` performs it:
      the result is a permutation of the input. */
  function Sort(d: Direction, s: seq<Task>): (r: seq<Task>)
    requires HasTitles(s)
    ensures multiset(r) == multiset(s)
    ensures HasTitles(r)
  {
    if s == [] then []
    else
      assert s == [s[0]] + s[1..];
      Insert(d, s[0], Sort(d, s[1..]))
  }

  /** Every earlier task compares at most equal to every later one. */
  predicate Sorted(d: Direction, s: seq<Task>)
    requires HasTitles(s)
  {
    forall i, j :: 0 <= i < j < |s| ==> Compare(d, s[i], s[j]) <= 0
  }

  /** The tasks whose title is `k`, in their order. */
  function WithTitle(s: seq<Task>, k: string): seq<Task>
  {
    if s == [] then []
    else (if s[0].title == Some(k) then [s[0]] else []) + WithTitle(s[1..], k)
  }

  /** A task that compares at most equal to every task of a sorted list
      can head it. */
  lemma SortedCons(d: Direction, y: Task, w: seq<Task>)
    requires y.title.Some? && HasTitles(w) && Sorted(d, w)
    requires forall z :: z in w ==> Compare(d, y, z) <= 0
    ensures HasTitles([y] + w) && Sorted(d, [y] + w)
  {
    var u := [y] + w;
    forall i, j | 0 <= i < j < |u| ensures Compare(d, u[i], u[j]) <= 0 {
      assert u[j] == w[j - 1];
      if i > 0 { assert u[i] == w[i - 1]; }
    }
  }

  lemma SortedTail(d: Direction, s: seq<Task>)
    requires HasTitles(s) && Sorted(d, s) && s != []
    ensures HasTitles(s[1..]) && Sorted(d, s[1..])
  {
    forall t | t in s[1..] ensures t.title.Some? { assert t in s; }
    forall i, j | 0 <= i < j < |s[1..]| ensures Compare(d, s[1..][i], s[1..][j]) <= 0 {
      assert s[1..][i] == s[i + 1] && s[1..][j] == s[j + 1];
    }
  }

  /** A task that compares at most equal to the head of a sorted list can head it. */
  lemma FrontSorted(d: Direction, x: Task, r: seq<Task>)
    requires x.title.Some? && HasTitles(r) && Sorted(d, r)
    requires r != [] ==> Compare(d, x, r[0]) <= 0
    ensures HasTitles([x] + r) && Sorted(d, [x] + r)
  {
    forall z | z in r ensures Compare(d, x, z) <= 0 {
      var m :| 0 <= m < |r| && r[m] == z;
      if m > 0 { CompareTransitive(d, x, r[0], z); }
    }
    SortedCons(d, x, r);
  }

  lemma {:induction false} InsertSorted(d: Direction, x: Task, r: seq<Task>)
    requires x.title.Some? && HasTitles(r) && Sorted(d, r)
    ensures Sorted(d, Insert(d, x, r))
  {
    if r == [] {
    } else if Compare(d, r[0], x) < 0 {
      var y, rest := r[0], r[1..];
      SortedTail(d, r);
      InsertSorted(d, x, rest);
      var w := Insert(d, x, rest);
      forall z | z in w ensures Compare(d, y, z) <= 0 {
        assert z in multiset(w);
        if z != x {
          assert z in multiset(rest);
          var m :| 0 <= m < |rest| && rest[m] == z;
          assert r[m + 1] == z;
        }
      }
      SortedCons(d, y, w);
    } else {
      CompareAntisymmetric(d, r[0], x);
      FrontSorted(d, x, r);
    }
  }

  /** The sort's output is ordered by the comparator. */
  lemma {:induction false} SortSorted(d: Direction, s: seq<Task>)
    requires HasTitles(s)
    ensures Sorted(d, Sort(d, s))
  {
    if s != [] {
      SortSorted(d, s[1..]);
      InsertSorted(d, s[0], Sort(d, s[1..]));
    }
  }

  lemma {:induction false} WithTitleConcat(a: seq<Task>, b: seq<Task>, k: string)
    ensures WithTitle(a + b, k) == WithTitle(a, k) + WithTitle(b, k)
  {
    if a == [] {
      assert a + b == b;
    } else {
      assert (a + b)[1..] == a[1..] + b;
      WithTitleConcat(a[1..], b, k);
    }
  }

  lemma WithTitleCons(x: Task, s: seq<Task>, k: string)
    ensures WithTitle([x] + s, k) == (if x.title == Some(k) then [x] else []) + WithTitle(s, k)
  {
    assert ([x] + s)[0] == x && ([x] + s)[1..] == s;
  }

  /** Two tasks of different titles commute as far as each title's tasks go. */
  lemma WithTitleSwap(y: Task, x: Task, rest: seq<Task>, w: seq<Task>, k: string)
    requires y.title != x.title
    requires WithTitle(w, k) == WithTitle([x] + rest, k)
    ensures WithTitle([y] + w, k) == WithTitle([x] + ([y] + rest), k)
  {
    var hy := if y.title == Some(k) then [y] else [];
    var hx := if x.title == Some(k) then [x] else [];
    var tail := WithTitle(rest, k);
    WithTitleCons(y, w, k);
    WithTitleCons(x, rest, k);
    WithTitleCons(x, [y] + rest, k);
    WithTitleCons(y, rest, k);
    assert hy == [] || hx == [];
    assert hy + (hx + tail) == hx + (hy + tail);
  }

  lemma {:induction false} InsertWithTitle(d: Direction, x: Task, r: seq<Task>, k: string)
    requires x.title.Some? && HasTitles(r)
    ensures WithTitle(Insert(d, x, r), k) == WithTitle([x] + r, k)
  {
    if r != [] && Compare(d, r[0], x) < 0 {
      var y, rest := r[0], r[1..];
      InsertWithTitle(d, x, rest, k);
      assert r == [y] + rest;
      WithTitleSwap(y, x, rest, Insert(d, x, rest), k);
    }
  }

  /** Stability: for every title, the tasks carrying it keep their relative order. */
  lemma {:induction false} SortStable(d: Direction, s: seq<Task>, k: string)
    requires HasTitles(s)
    ensures WithTitle(Sort(d, s), k) == WithTitle(s, k)
  {
    if s != [] {
      SortStable(d, s[1..], k);
      InsertWithTitle(d, s[0], Sort(d, s[1..]), k);
      WithTitleConcat([s[0]], Sort(d, s[1..]), k);
      WithTitleConcat([s[0]], s[1..], k);
      assert s == [s[0]] + s[1..];
    }
  }

  lemma {:induction false} WithTitleMembers(s: seq<Task>, k: string, x: Task)
    ensures x in WithTitle(s, k) <==> x in s && x.title == Some(k)
  {
    if s != [] {
      WithTitleMembers(s[1..], k, x);
      assert s == [s[0]] + s[1..];
    }
  }

  /** Tasks of each title agreeing, both sequences are empty or both are not. */
  lemma TitlesAgreeOnEmpty(u: seq<Task>, t: seq<Task>)
    requires HasTitles(u) && HasTitles(t)
    requires forall k :: WithTitle(u, k) == WithTitle(t, k)
    ensures u == [] <==> t == []
  {
    if u != [] {
      WithTitleMembers(u, u[0].title.value, u[0]);
      assert WithTitle(t, u[0].title.value) != [];
    }
    if t != [] {
      WithTitleMembers(t, t[0].title.value, t[0]);
      assert WithTitle(u, t[0].title.value) != [];
    }
  }

  /** Two non-empty sequences in order, with the tasks of each title agreeing,
      start with the same task. */
  lemma SortedHeadsAgree(d: Direction, u: seq<Task>, t: seq<Task>)
    requires HasTitles(u) && HasTitles(t) && Sorted(d, u) && Sorted(d, t)
    requires u != [] && t != []
    requires forall k :: WithTitle(u, k) == WithTitle(t, k)
    ensures u[0] == t[0]
  {
    var a, b := u[0], t[0];
    var ka, kb := a.title.value, b.title.value;
    WithTitleMembers(t, kb, b);
    WithTitleMembers(u, kb, b);
    WithTitleMembers(u, ka, a);
    WithTitleMembers(t, ka, a);
    var j :| 0 <= j < |u| && u[j] == b;
    var i :| 0 <= i < |t| && t[i] == a;
    assert Compare(d, a, b) <= 0 by { if j == 0 { CompareAntisymmetric(d, a, b); } }
    assert Compare(d, b, a) <= 0 by { if i == 0 { CompareAntisymmetric(d, b, a); } }
    CompareAntisymmetric(d, a, b);
    assert WithTitle(u, ka) == [a] + WithTitle(u[1..], ka);
    assert WithTitle(t, ka) == [b] + WithTitle(t[1..], ka);
    assert WithTitle(u, ka)[0] == a && WithTitle(t, ka)[0] == b;
  }

  lemma TailTitlesAgree(u: seq<Task>, t: seq<Task>)
    requires u != [] && t != [] && u[0] == t[0]
    requires forall k :: WithTitle(u, k) == WithTitle(t, k)
    ensures forall k :: WithTitle(u[1..], k) == WithTitle(t[1..], k)
  {
    forall k ensures WithTitle(u[1..], k) == WithTitle(t[1..], k) {
      assert u == [u[0]] + u[1..] && t == [t[0]] + t[1..];
      WithTitleConcat([u[0]], u[1..], k);
      WithTitleConcat([t[0]], t[1..], k);
      var h := WithTitle([u[0]], k);
      var x, y := WithTitle(u[1..], k), WithTitle(t[1..], k);
      assert h + x == h + y;
      assert x == (h + x)[|h|..] && y == (h + y)[|h|..];
    }
  }

  /** Two sequences in order whose tasks of each title agree are equal: the
      order and stability determine the sort's result. */
  lemma {:induction false} SortedTitlesUnique(d: Direction, u: seq<Task>, t: seq<Task>)
    requires HasTitles(u) && HasTitles(t) && Sorted(d, u) && Sorted(d, t)
    requires forall k :: WithTitle(u, k) == WithTitle(t, k)
    ensures u == t
    decreases |u|
  {
    TitlesAgreeOnEmpty(u, t);
    if u != [] {
      SortedHeadsAgree(d, u, t);
      TailTitlesAgree(u, t);
      SortedTail(d, u);
      SortedTail(d, t);
      SortedTitlesUnique(d, u[1..], t[1..]);
      assert u == [u[0]] + u[1..] && t == [t[0]] + t[1..];
    }
  }

  /** The sort's result is exactly the sequence in order whose tasks of each
      title are the input's, in the input's order. */
  lemma SortCharacterized(d: Direction, s: seq<Task>, t: seq<Task>)
    requires HasTitles(s)
    ensures t == Sort(d, s) ==> HasTitles(t) && Sorted(d, t)
    ensures t == Sort(d, s) ==> forall k :: WithTitle(t, k) == WithTitle(s, k)
    ensures HasTitles(t) && Sorted(d, t) && (forall k :: WithTitle(t, k) == WithTitle(s, k)) ==> t == Sort(d, s)
  {
    var r := Sort(d, s);
    SortSorted(d, s);
    forall k ensures WithTitle(r, k) == WithTitle(s, k) { SortStable(d, s, k); }
    if HasTitles(t) && Sorted(d, t) && forall k :: WithTitle(t, k) == WithTitle(s, k) {
      forall k ensures WithTitle(t, k) == WithTitle(r, k) {
        assert WithTitle(t, k) == WithTitle(s, k);
      }
      SortedTitlesUnique(d, t, r);
    }
  }

  /** A task at most equal to the head goes in front. */
  lemma InsertInFront(d: Direction, x: Task, r: seq<Task>)
    requires x.title.Some? && HasTitles(r)
    requires r != [] ==> Compare(d, x, r[0]) <= 0
    ensures Insert(d, x, r) == [x] + r
  {
    if r != [] { CompareAntisymmetric(d, x, r[0]); }
  }

  /** A sequence already in order is its own sort. */
  lemma {:induction false} SortOfSorted(d: Direction, s: seq<Task>)
    requires HasTitles(s) && Sorted(d, s)
    ensures Sort(d, s) == s
  {
    if s != [] {
      var x, rest := s[0], s[1..];
      SortedTail(d, s);
      SortOfSorted(d, rest);
      if rest != [] { assert rest[0] == s[1]; }
      InsertInFront(d, x, rest);
      assert s == [x] + rest;
    }
  }

  /** Sorting twice is sorting once. */
  lemma SortIdempotent(d: Direction, s: seq<Task>)
    requires HasTitles(s)
    ensures Sort(d, Sort(d, s)) == Sort(d, s)
  {
    SortSorted(d, s);
    SortOfSorted(d, Sort(d, s));
  }

  // ---------------------------------------------------------------------
  // The projection

  /** `sortedTasks`: the store's list itself when no sort is chosen,
      otherwise a sorted copy. */
  function SortedTasks(tasks: seq<Task>, config: Option<SortConfig>): (r: seq<Task>)
    requires config.Some? ==> HasTitles(tasks)
    ensures multiset(r) == multiset(tasks)
    ensures config.Some? ==> HasTitles(r) && Sorted(config.value.direction, r)
  {
    if config.None? then tasks
    else (SortSorted(config.value.direction, tasks); Sort(config.value.direction, tasks))
  }

  /** What the projection promises: identity without a config; with one, a
      permutation, titles non-decreasing (ascending) or non-increasing
      (descending), and equal titles in their original order. */
  lemma SortedTasksSpec(tasks: seq<Task>, config: Option<SortConfig>, k: string)
    requires config.Some? ==> HasTitles(tasks)
    ensures config.None? ==> SortedTasks(tasks, config) == tasks
    ensures multiset(SortedTasks(tasks, config)) == multiset(tasks)
    ensures |SortedTasks(tasks, config)| == |tasks|
    ensures config.Some? ==> WithTitle(SortedTasks(tasks, config), k) == WithTitle(tasks, k)
    ensures config.Some? ==> HasTitles(SortedTasks(tasks, config))
    ensures config == Some(SortConfig(TitleKey, Ascending)) ==>
      forall i, j :: 0 <= i < j < |tasks| ==>
        !StringLess(SortedTasks(tasks, config)[j].title.value, SortedTasks(tasks, config)[i].title.value)
    ensures config == Some(SortConfig(TitleKey, Descending)) ==>
      forall i, j :: 0 <= i < j < |tasks| ==>
        !StringLess(SortedTasks(tasks, config)[i].title.value, SortedTasks(tasks, config)[j].title.value)
  {
    if config.Some? {
      var d := config.value.direction;
      SortSorted(d, tasks);
      SortStable(d, tasks, k);
      var out := Sort(d, tasks);
      assert |out| == |multiset(out)| == |tasks|;
      forall i, j | 0 <= i < j < |tasks|
        ensures d == Ascending ==> !StringLess(out[j].title.value, out[i].title.value)
        ensures d == Descending ==> !StringLess(out[i].title.value, out[j].title.value)
      {
        assert out[i] in out && out[j] in out;
        StringLessAsymmetric(out[i].title.value, out[j].title.value);
      }
    }
  }

  // ---------------------------------------------------------------------
  // The sort toggle

  /** `requestSort(key)` given the current config. */
  function NextSortConfig(current: Option<SortConfig>, key: SortKey): (r: SortConfig)
    ensures r.key == key
    ensures r.direction == Descending <==>
      current.Some? && current.value.key == key && current.value.direction == Ascending
  {
    if current.Some? && current.value.key == key && current.value.direction == Ascending
    then SortConfig(key, Descending)
    else SortConfig(key, Ascending)
  }

  /** The config after `n` clicks on the header of `key`. */
  function Clicks(current: Option<SortConfig>, key: SortKey, n: nat): Option<SortConfig>
  {
    if n == 0 then current else Some(NextSortConfig(Clicks(current, key, n - 1), key))
  }

  /** From no config, clicks alternate ascending, descending, ascending, ... */
  lemma {:induction false} ClicksAlternate(key: SortKey, n: nat)
    requires n >= 1
    ensures Clicks(None, key, n) ==
      Some(SortConfig(key, if n % 2 == 1 then Ascending else Descending))
  {
    if n > 1 { ClicksAlternate(key, n - 1); }
  }

  /** The view's sort state cell. */
  class TasksListView {
    var sortConfig: Option<SortConfig>

    constructor ()
      ensures sortConfig == None
    {
      sortConfig := None;
    }

    method RequestSort(key: SortKey)
      modifies this
      ensures sortConfig == Some(NextSortConfig(old(sortConfig), key))
    {
      var direction := Ascending;
      if sortConfig.Some? && sortConfig.value.key == key && sortConfig.value.direction == Ascending {
        direction := Descending;
      }
      sortConfig := Some(SortConfig(key, direction));
    }
  }

  // ---------------------------------------------------------------------
  // The render gate

  datatype Screen = LoadingScreen | ErrorScreen(message: string) | ListScreen(rows: seq<Task>)

  /** Loading first, then a truthy error, otherwise the sorted list. */
  function Render(loading: bool, error: ErrorValue, tasks: seq<Task>, config: Option<SortConfig>): (v: Screen)
    requires config.Some? ==> HasTitles(tasks)
    ensures v.LoadingScreen? <==> loading
    ensures v.ErrorScreen? <==> !loading && Truthy(error)
    ensures v.ErrorScreen? ==> v.message == error.text
    ensures v.ListScreen? <==> !loading && !Truthy(error)
    ensures v.ListScreen? ==> v.rows == SortedTasks(tasks, config)
    ensures v.ListScreen? ==> multiset(v.rows) == multiset(tasks)
  {
    var rows := SortedTasks(tasks, config);
    SortedTasksSpec(tasks, config, "");
    if loading then LoadingScreen
    else if Truthy(error) then ErrorScreen(error.text)
    else ListScreen(rows)
  }
}
