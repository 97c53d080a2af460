/**
 The limit of five active jobs per user. `CreateJob` counts first and inserts later, so the limit holds up to the
 number of a user's requests that stand between the two.
 */
module ActiveJobs {
  import opened Basics
  import opened JobTable
  import opened Ledger
  import opened Protocol
  import Delivery

  /** The user's requests past the count and not yet inserted. */
  function Waiting(s: State, user: UserId): set<HandlerId> {
    set h | h in s.handlers && s.handlers[h] == Admitted(user)
  }

  function Active(s: State, user: UserId): nat {
    |ActiveIds(s.db.rows, user)|
  }

  lemma SubsetSize<T>(a: set<T>, b: set<T>)
    requires a <= b
    ensures |a| <= |b|
  {
    assert b == a + (b - a);
  }

  /** Only an insert for the user adds to the active rows, and it adds one. */
  lemma StatementActive(t: Table, st: Statement, now: int, user: UserId)
    ensures |ActiveIds(Execute(t, st, now), user)| <=
            |ActiveIds(t, user)| + (if st.Insert? && st.user == user then 1 else 0)
  {
    var a, b := ActiveIds(t, user), ActiveIds(Execute(t, st, now), user);
    if st.Insert? && st.user == user {
      SubsetSize(b, a + {st.id});
    } else {
      SubsetSize(b, a);
    }
  }

  lemma InsertSent(s: State, step: Step)
    requires Enabled(s, step) && Effect(s, step).Some? && Effect(s, step).value.Insert?
    ensures step.Create? && s.handlers[step.h] == Admitted(Effect(s, step).value.user)
  {
  }

  lemma EffectActive(s: State, step: Step, user: UserId)
    requires Enabled(s, step)
    ensures Active(Apply(s, step), user) <=
            Active(s, user) + (if step.Create? && s.handlers[step.h] == Admitted(user) then 1 else 0)
  {
    StepIsRecorded(s, step);
    var e := Effect(s, step);
    if e.Some? {
      StatementActive(s.db.rows, e.value, s.now, user);
      if e.value.Insert? {
        InsertSent(s, step);
      }
    }
  }

  lemma WaitingChange(s: State, step: Step, user: UserId)
    requires Enabled(s, step)
    ensures step.Create? && s.handlers[step.h] == Admitted(user) ==>
            |Waiting(Apply(s, step), user)| == |Waiting(s, user)| - 1
    ensures !(step.Create? && s.handlers[step.h] == Admitted(user)) && !(step.Count? && step.user == user) ==>
            |Waiting(Apply(s, step), user)| <= |Waiting(s, user)|
  {
    ControlIsOutsideTheTable(s, step);
    var a, b := Waiting(s, user), Waiting(Apply(s, step), user);
    if step.Create? && s.handlers[step.h] == Admitted(user) {
      assert b == a - {step.h};
    } else if step.Count? || step.Create? || step.Submit? || step.Restart? {
      if !step.Count? || step.user != user {
        SubsetSize(b, a);
      }
    } else {
      HandlersFrame(s, step);
    }
  }

  ghost predicate Bounded(s: State, user: UserId, k: nat) {
    Active(s, user) + |Waiting(s, user)| <= 4 + k
  }

  /** At no point of the run do more than `k` of the user's requests stand between count and insert. */
  ghost predicate Overlap(s: State, steps: seq<Step>, user: UserId, k: nat)
    requires Run(s, steps)
    decreases |steps|
  {
    && |Waiting(s, user)| <= k
    && (steps == [] || Overlap(Apply(s, steps[0]), steps[1..], user, k))
  }

  lemma {:induction false} RunStaysBounded(s: State, steps: seq<Step>, user: UserId, k: nat)
    requires Run(s, steps) && Overlap(s, steps, user, k) && Bounded(s, user, k)
    ensures Bounded(End(s, steps), user, k)
    decreases |steps|
  {
    if steps != [] {
      EffectActive(s, steps[0], user);
      WaitingChange(s, steps[0], user);
      var s' := Apply(s, steps[0]);
      if steps[0].Count? && steps[0].user == user {
        assert s'.db == s.db;
        assert |Waiting(s', user)| <= k;
      }
      RunStaysBounded(s', steps[1..], user, k);
    }
  }

  /** With at most `k` requests between count and insert the user never has more than 4 + k active jobs. */
  lemma ActiveBound(s: State, steps: seq<Step>, user: UserId, k: nat)
    requires Initial(s) && Run(s, steps) && Overlap(s, steps, user, k)
    ensures Active(End(s, steps), user) <= 4 + k
  {
    StartIsEmpty(s, user);
    RunStaysBounded(s, steps, user, k);
  }

  // ---------------------------------------------------------------- the bound is reached

  function Range(lo: nat, hi: nat): (r: set<nat>)
    requires lo <= hi
    ensures forall i :: i in r <==> lo <= i < hi
    ensures |r| == hi - lo
    decreases hi - lo
  {
    if lo == hi then {} else Range(lo, hi - 1) + {hi - 1}
  }

  function Rows(m: nat, user: UserId): (t: Table)
    ensures forall i: nat :: i in t <==> i < m
    ensures forall i: nat :: i < m ==> t[i] == NewRow(user, 1, 0)
  {
    if m == 0 then map[] else Rows(m - 1, user)[m - 1 := NewRow(user, 1, 0)]
  }

  function Books(m: nat): (b: map<JobId, Tally>)
    ensures forall i: nat :: i in b <==> i < m
    ensures forall i: nat :: i < m ==> b[i] == Tally(0, 0, 0)
  {
    if m == 0 then map[] else Books(m - 1)[m - 1 := Tally(0, 0, 0)]
  }

  function Requests(m: nat, a: nat, user: UserId): (r: map<HandlerId, Request>)
    ensures forall h: nat :: h in r <==> h < m + a
    ensures forall h: nat :: h < m + a ==> r[h] == if h < m then Inserted(h) else Admitted(user)
    decreases m + a
  {
    if a > 0 then Requests(m, a - 1, user)[m + a - 1 := Admitted(user)]
    else if m > 0 then Requests(m - 1, 0, user)[m - 1 := Inserted(m - 1)]
    else map[]
  }

  /** `m` requests of the user have inserted jobs 0..m-1, and the next `a` have passed the count. */
  function Primed(m: nat, a: nat, user: UserId): State {
    Delivery.Booted(1, 0).(db := Journal(Rows(m, user), Books(m)), handlers := Requests(m, a, user))
  }

  lemma PrimedSizes(m: nat, a: nat, user: UserId)
    ensures Active(Primed(m, a, user), user) == m && |Waiting(Primed(m, a, user), user)| == a
  {
    var s := Primed(m, a, user);
    assert ActiveIds(s.db.rows, user) == Range(0, m);
    assert Waiting(s, user) == Range(m, m + a);
  }

  lemma CountPrimed(m: nat, a: nat, user: UserId)
    requires m < 5
    ensures Enabled(Primed(m, a, user), Count(m + a, user))
    ensures Apply(Primed(m, a, user), Count(m + a, user)) == Primed(m, a + 1, user)
  {
    PrimedSizes(m, a, user);
    var s := Apply(Primed(m, a, user), Count(m + a, user));
    assert s.handlers == Primed(m, a + 1, user).handlers;
  }

  lemma PrimedGrows(m: nat, a: nat, user: UserId)
    requires a > 0
    ensures Primed(m, a, user).db.rows[m := NewRow(user, 1, 0)] == Primed(m + 1, a - 1, user).db.rows
    ensures Primed(m, a, user).db.history[m := Tally(0, 0, 0)] == Primed(m + 1, a - 1, user).db.history
    ensures Primed(m, a, user).handlers[m := Inserted(m)] == Primed(m + 1, a - 1, user).handlers
  {
  }

  lemma InsertRecorded(j: Journal, id: JobId, user: UserId)
    requires id !in j.rows && id !in j.history
    ensures Record(j, Insert(id, user, 1), 0) ==
            Journal(j.rows[id := NewRow(user, 1, 0)], j.history[id := Tally(0, 0, 0)])
  {
    var st := Insert(id, user, 1);
    var rows := Execute(j.rows, st, 0);
    assert rows == j.rows[id := NewRow(user, 1, 0)];
    assert Observe(j.history, j.rows, rows) == j.history;
  }

  lemma InsertPrimed(m: nat, a: nat, user: UserId)
    requires a > 0
    ensures Enabled(Primed(m, a, user), Create(m, m, 1, Answered))
    ensures Apply(Primed(m, a, user), Create(m, m, 1, Answered)) == Primed(m + 1, a - 1, user)
  {
    var s, step := Primed(m, a, user), Create(m, m, 1, Answered);
    assert Effect(s, step) == Some(Insert(m, user, 1));
    InsertRecorded(s.db, m, user);
    PrimedGrows(m, a, user);
  }

  /** The steps lead from `s` to `t` with an overlap of at most `k`. */
  ghost predicate Path(s: State, steps: seq<Step>, t: State, user: UserId, k: nat) {
    Run(s, steps) && Overlap(s, steps, user, k) && End(s, steps) == t
  }

  lemma PathCons(s: State, step: Step, s': State, rest: seq<Step>, t: State, user: UserId, k: nat)
    requires Enabled(s, step) && |Waiting(s, user)| <= k && Apply(s, step) == s' && Path(s', rest, t, user, k)
    ensures Path(s, [step] + rest, t, user, k)
  {
    assert ([step] + rest)[1..] == rest;
  }

  lemma {:induction false} PathAppend(s: State, a: seq<Step>, t: State, b: seq<Step>, u: State, user: UserId, k: nat)
    requires Path(s, a, t, user, k) && Path(t, b, u, user, k)
    ensures Path(s, a + b, u, user, k)
    decreases |a|
  {
    if a == [] {
      assert a + b == b;
    } else {
      assert a + b == [a[0]] + (a[1..] + b);
      PathAppend(Apply(s, a[0]), a[1..], t, b, u, user, k);
      PathCons(s, a[0], Apply(s, a[0]), a[1..] + b, u, user, k);
    }
  }

  /** From a state with `m` active jobs: `b` further counts. */
  lemma {:induction false} Counts(m: nat, a: nat, b: nat, user: UserId, k: nat) returns (steps: seq<Step>)
    requires m < 5 && a + b <= k
    ensures Path(Primed(m, a, user), steps, Primed(m, a + b, user), user, k)
    decreases b
  {
    PrimedSizes(m, a, user);
    if b == 0 {
      steps := [];
    } else {
      CountPrimed(m, a, user);
      var rest := Counts(m, a + 1, b - 1, user, k);
      steps := [Count(m + a, user)] + rest;
      PathCons(Primed(m, a, user), Count(m + a, user), Primed(m, a + 1, user), rest, Primed(m, a + b, user), user, k);
    }
  }

  lemma PathNil(s: State, user: UserId, k: nat)
    requires |Waiting(s, user)| <= k
    ensures Path(s, [], s, user, k)
  {
  }

  lemma InsertFirst(m: nat, a: nat, rest: seq<Step>, t: State, user: UserId, k: nat)
    requires 0 < a <= k && Path(Primed(m + 1, a - 1, user), rest, t, user, k)
    ensures Path(Primed(m, a, user), [Create(m, m, 1, Answered)] + rest, t, user, k)
  {
    PrimedSizes(m, a, user);
    InsertPrimed(m, a, user);
    PathCons(Primed(m, a, user), Create(m, m, 1, Answered), Primed(m + 1, a - 1, user), rest, t, user, k);
  }

  /** Then all waiting requests insert. */
  lemma {:induction false} Inserts(m: nat, a: nat, user: UserId, k: nat) returns (steps: seq<Step>)
    requires a <= k
    ensures Path(Primed(m, a, user), steps, Primed(m + a, 0, user), user, k)
    decreases a
  {
    if a == 0 {
      PrimedSizes(m, a, user);
      PathNil(Primed(m, a, user), user, k);
      steps := [];
    } else {
      var rest := Inserts(m + 1, a - 1, user, k);
      InsertFirst(m, a, rest, Primed(m + a, 0, user), user, k);
      steps := [Create(m, m, 1, Answered)] + rest;
    }
  }

  lemma {:induction false} Burst(m: nat, a: nat, user: UserId, k: nat) returns (steps: seq<Step>)
    requires m < 5 && a <= k
    ensures Path(Primed(m, 0, user), steps, Primed(m + a, 0, user), user, k)
  {
    var count := Counts(m, 0, a, user, k);
    var insert := Inserts(m, a, user, k);
    PathAppend(Primed(m, 0, user), count, Primed(m, a, user), insert, Primed(m + a, 0, user), user, k);
    steps := count + insert;
  }

  /** One request after the other: count, insert, count, insert, ... */
  lemma {:induction false} OneByOne(from: nat, m: nat, user: UserId, k: nat) returns (steps: seq<Step>)
    requires from <= m <= 4 && k >= 1
    ensures Path(Primed(from, 0, user), steps, Primed(m, 0, user), user, k)
  {
    if m == from {
      PrimedSizes(m, 0, user);
      steps := [];
    } else {
      var s, t, u := Primed(from, 0, user), Primed(m - 1, 0, user), Primed(m, 0, user);
      var before := OneByOne(from, m - 1, user, k);
      var last := Burst(m - 1, 1, user, k);
      PathAppend(s, before, t, last, u, user, k);
      steps := before + last;
    }
  }

  lemma BootedIsPrimed(none: nat, user: UserId)
    requires none == 0
    ensures Primed(none, 0, user) == Delivery.Booted(1, 0)
  {
  }

  /** `most` jobs one after the other, then `k` requests at once. */
  lemma FullHouse(from: nat, most: nat, user: UserId, k: nat) returns (steps: seq<Step>)
    requires k >= 1 && from <= most <= 4
    ensures Path(Primed(from, 0, user), steps, Primed(most + k, 0, user), user, k)
  {
    var serial := OneByOne(from, most, user, k);
    var burst := Burst(most, k, user, k);
    PathAppend(Primed(from, 0, user), serial, Primed(most, 0, user), burst, Primed(most + k, 0, user), user, k);
    steps := serial + burst;
  }

  /** A booted server reaches exactly 4 + k active jobs with an overlap of k. */
  lemma BootedReaches(user: UserId, k: nat) returns (steps: seq<Step>, t: State)
    requires k >= 1
    ensures Path(Delivery.Booted(1, 0), steps, t, user, k) && Active(t, user) == 4 + k
  {
    var none: nat, most: nat := 0, 4;
    BootedIsPrimed(none, user);
    t := Primed(most + k, 0, user);
    steps := FullHouse(none, most, user, k);
    PrimedSizes(most + k, 0, user);
  }

  /** Where nobody counts, no overlap arises. */
  lemma {:induction false} NoCountNoOverlap(s: State, steps: seq<Step>, user: UserId, k: nat)
    requires Run(s, steps) && |Waiting(s, user)| <= k && forall i :: 0 <= i < |steps| ==> !steps[i].Count?
    ensures Overlap(s, steps, user, k)
    decreases |steps|
  {
    if steps != [] {
      assert !steps[0].Count?;
      WaitingChange(s, steps[0], user);
      NoCountNoOverlap(Apply(s, steps[0]), steps[1..], user, k);
    }
  }

  /** From the start: a run that overlaps by k and ends with 4 + k active jobs. */
  lemma BoundIsReached(user: UserId, k: nat) returns (s: State, steps: seq<Step>)
    requires k >= 1
    ensures Initial(s) && Run(s, steps) && Overlap(s, steps, user, k) && Active(End(s, steps), user) == 4 + k
  {
    var b, boot := Delivery.Booted(1, 0), [];
    s, boot := Delivery.BootedIsReachable(b);
    StartIsEmpty(s, user);
    NoCountNoOverlap(s, boot, user, k);
    var more, t := BootedReaches(user, k);
    PathAppend(s, boot, b, more, t, user, k);
    steps := boot + more;
  }

  /** The intended limit of five holds in every run exactly when requests of one user are serialised. */
  lemma FiveExactlyWhenSerial(user: UserId, k: nat)
    ensures (forall s, steps :: Initial(s) && Run(s, steps) && Overlap(s, steps, user, k) ==>
              Active(End(s, steps), user) <= 5)
            <==> k <= 1
  {
    if k <= 1 {
      forall s, steps | Initial(s) && Run(s, steps) && Overlap(s, steps, user, k)
        ensures Active(End(s, steps), user) <= 5
      {
        StartIsEmpty(s, user);
        ActiveBound(s, steps, user, k);
      }
    } else {
      var s, steps := BoundIsReached(user, k);
    }
  }

  lemma StartIsEmpty(s: State, user: UserId)
    requires Initial(s)
    ensures Active(s, user) == 0 && Waiting(s, user) == {}
  {
    assert ActiveIds(s.db.rows, user) == {};
  }
}
