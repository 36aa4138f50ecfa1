/** The three task lists the planner's main page renders (App.js): the
    critical list, today's agenda and the non-critical list. Each is a filter
    of the client's task cache; the two urgency lists are cut to 50 entries. */
module Views {
  import opened Tasks

  /** The renderer's `.slice(0, 50)` bound on the two urgency lists. */
  const Cap: nat := 50

  predicate IsCriticalLive(t: Task) { t.level == "C" && t.delFlg == "N" }

  predicate IsNonCriticalLive(t: Task) { t.level != "C" && t.delFlg == "N" }

  function LiveOn(today: int): Task -> bool
  {
    (t: Task) => t.delFlg == "N" && t.date == today
  }

  /** JavaScript's `s.slice(0, n)`: the longest prefix of `s` of length at most `n`. */
  function Prefix(s: seq<Task>, n: nat): (r: seq<Task>)
    ensures r <= s
    ensures |r| == if |s| <= n then |s| else n
    ensures forall t :: t in r ==> t in s
  {
    if |s| <= n then s
    else
      assert forall t :: t in s[..n] ==> t in s by {
        forall t | t in s[..n] ensures t in s { var i :| 0 <= i < n && s[..n][i] == t; assert s[i] == t; }
      }
      s[..n]
  }

  /** The "Critical task" box: live tasks of level "C", whatever their date,
      the first 50 of them in cache order. */
  function CriticalTasks(tasks: seq<Task>): (r: seq<Task>)
    ensures |r| <= Cap
    ensures r <= Filter(tasks, IsCriticalLive)
    ensures |r| == if |Filter(tasks, IsCriticalLive)| <= Cap then |Filter(tasks, IsCriticalLive)| else Cap
    ensures forall t :: t in r ==> t in tasks && t.level == "C" && t.delFlg == "N"
    ensures |Filter(tasks, IsCriticalLive)| <= Cap ==>
              forall t :: t in tasks && t.level == "C" && t.delFlg == "N" ==> t in r
  {
    Prefix(Filter(tasks, IsCriticalLive), Cap)
  }

  /** The "Non Critical task" box: live tasks of any level other than "C",
      the first 50 of them in cache order. */
  function NonCriticalTasks(tasks: seq<Task>): (r: seq<Task>)
    ensures |r| <= Cap
    ensures r <= Filter(tasks, IsNonCriticalLive)
    ensures |r| == if |Filter(tasks, IsNonCriticalLive)| <= Cap then |Filter(tasks, IsNonCriticalLive)| else Cap
    ensures forall t :: t in r ==> t in tasks && t.level != "C" && t.delFlg == "N"
    ensures |Filter(tasks, IsNonCriticalLive)| <= Cap ==>
              forall t :: t in tasks && t.level != "C" && t.delFlg == "N" ==> t in r
  {
    Prefix(Filter(tasks, IsNonCriticalLive), Cap)
  }

  /** Today's agenda: every live task due today, in cache order, with no cap. */
  function Agenda(tasks: seq<Task>, today: int): (r: seq<Task>)
    ensures |r| <= |tasks|
    ensures forall t :: t in r <==> t in tasks && t.delFlg == "N" && t.date == today
  {
    Filter(tasks, LiveOn(today))
  }

  /** No task appears in both urgency lists. */
  lemma UrgencyListsDisjoint(tasks: seq<Task>)
    ensures forall t :: t in CriticalTasks(tasks) ==> t !in NonCriticalTasks(tasks)
  {
  }

  /** While neither urgency list is cut by the cap, together they show every
      live task, whatever its level. */
  lemma UrgencyListsCoverLive(tasks: seq<Task>, t: Task)
    requires |Filter(tasks, IsCriticalLive)| <= Cap && |Filter(tasks, IsNonCriticalLive)| <= Cap
    requires t in tasks && t.delFlg == "N"
    ensures t in CriticalTasks(tasks) || t in NonCriticalTasks(tasks)
  {
  }

  /** A task whose `delFlg` is not "N" is in none of the three lists. */
  lemma NotLiveIsHidden(tasks: seq<Task>, today: int, t: Task)
    requires t.delFlg != "N"
    ensures t !in CriticalTasks(tasks) && t !in NonCriticalTasks(tasks) && t !in Agenda(tasks, today)
  {
  }

  /** The agenda is untruncated: each task due today and live occurs in it
      as often as in the cache, and nothing else occurs in it. */
  lemma AgendaMultiplicity(tasks: seq<Task>, today: int, t: Task)
    ensures multiset(Agenda(tasks, today))[t] ==
              if t.delFlg == "N" && t.date == today then multiset(tasks)[t] else 0
  {
    FilterMultiplicity(tasks, LiveOn(today), t);
  }

  /** The agenda keeps cache order: the agenda of a concatenation is the
      concatenation of the agendas. */
  lemma AgendaKeepsOrder(a: seq<Task>, b: seq<Task>, today: int)
    ensures Agenda(a + b, today) == Agenda(a, today) + Agenda(b, today)
  {
    FilterAppend(a, b, LiveOn(today));
  }

  /** The critical list keeps cache order: it is a prefix of the critical
      tasks of the earlier part of the cache followed by those of the later part. */
  lemma CriticalKeepsOrder(a: seq<Task>, b: seq<Task>)
    ensures CriticalTasks(a + b) <= Filter(a, IsCriticalLive) + Filter(b, IsCriticalLive)
  {
    FilterAppend(a, b, IsCriticalLive);
  }
}
