/** The task record shared by the planner's client and server, and the
    order-preserving filter that every client-side view is built from. */
module Tasks {

  datatype Option<T> = None | Some(value: T)

  /** One planner task. `ids` is the identifier the store assigns; `date` is a
      calendar day number; `level` is "C", "M" or "L" as the form offers them;
      `delFlg` and `compFlg` are "Y"/"N" flags, kept as text because App.js and
      views.py compare them as text (`!== "Y"` in one place, `=== "N"` in others). */
  datatype Task = Task(
    ids: string,
    title: string,
    desc: string,
    date: int,
    level: string,
    delFlg: string,
    compFlg: string)

  /** Keeps, in list order, exactly the elements that satisfy `p`
      (JavaScript's `Array.prototype.filter`). */
  function Filter(s: seq<Task>, p: Task -> bool): (r: seq<Task>)
    ensures |r| <= |s|
    ensures forall t :: t in r <==> t in s && p(t)
    decreases |s|
  {
    if s == [] then []
    else (if p(s[0]) then [s[0]] else []) + Filter(s[1..], p)
  }

  /** Filtering distributes over concatenation: the relative order of the
      kept elements is the order they had in the input. */
  lemma {:induction false} FilterAppend(a: seq<Task>, b: seq<Task>, p: Task -> bool)
    ensures Filter(a + b, p) == Filter(a, p) + Filter(b, p)
    decreases |a|
  {
    if a == [] {
      assert a + b == b;
    } else {
      assert (a + b)[0] == a[0];
      assert (a + b)[1..] == a[1..] + b;
      FilterAppend(a[1..], b, p);
    }
  }

  /** Each element occurs in the filtered list exactly as often as in the
      input when it satisfies `p`, and not at all otherwise. */
  lemma {:induction false} FilterMultiplicity(s: seq<Task>, p: Task -> bool, t: Task)
    ensures multiset(Filter(s, p))[t] == if p(t) then multiset(s)[t] else 0
    decreases |s|
  {
    if s != [] {
      FilterMultiplicity(s[1..], p, t);
      assert s == [s[0]] + s[1..];
      assert multiset(s) == multiset([s[0]]) + multiset(s[1..]);
    }
  }
}
