/** What one thread of a state machine does while the others run: steps of its own, with pauses in between. */
module Programs {
  import opened Sums

  /** A state machine as one of its threads sees it: which steps are possible, what they do, and which of the possible
      steps the other threads may take. */
  datatype Machine<!S, !A> = Machine(enabled: (S, A) -> bool, apply: (S, A) -> S, others: (S, A) -> bool)

  predicate Foreign<S, A>(m: Machine<S, A>, s: S, a: A)
  {
    m.enabled(s, a) && m.others(s, a)
  }

  /** One piece of a thread's program: a step of its own, a pause in which the others follow a schedule, or the steps
      that the state calls for. */
  datatype Segment<!S, !A> = Step(a: A) | Pause(schedule: seq<A>) | Then(steps: S -> seq<A>)

  /** The state after some steps. */
  ghost function Walk<S, A>(m: Machine<S, A>, s: S, acts: seq<A>): S
    decreases |acts|
  {
    if acts == [] then s else Walk(m, m.apply(s, acts[0]), acts[1..])
  }

  /** All of them are possible, one after the other. */
  ghost predicate CanWalk<S, A>(m: Machine<S, A>, s: S, acts: seq<A>)
    decreases |acts|
  {
    acts == [] || (m.enabled(s, acts[0]) && CanWalk(m, m.apply(s, acts[0]), acts[1..]))
  }

  /** The steps of a schedule that are taken: those, in their order, that the others may take when their turn comes. */
  ghost function Ran<S, A>(m: Machine<S, A>, s: S, schedule: seq<A>): seq<A>
    decreases |schedule|
  {
    if schedule == [] then []
    else if Foreign(m, s, schedule[0]) then [schedule[0]] + Ran(m, m.apply(s, schedule[0]), schedule[1..])
    else Ran(m, s, schedule[1..])
  }

  ghost function Taken<S, A>(m: Machine<S, A>, s: S, x: Segment<S, A>): seq<A>
  {
    match x
    case Step(a) => [a]
    case Pause(schedule) => Ran(m, s, schedule)
    case Then(steps) => steps(s)
  }

  /** The steps of a program, its own and those of the others, when it is executed from s. */
  ghost function Trace<S, A>(m: Machine<S, A>, s: S, program: seq<Segment<S, A>>): seq<A>
    decreases |program|
  {
    if program == [] then [] else
      var taken := Taken(m, s, program[0]);
      taken + Trace(m, Walk(m, s, taken), program[1..])
  }

  lemma {:induction false} WalkAppend<S, A>(m: Machine<S, A>, s: S, acts: seq<A>, more: seq<A>)
    ensures Walk(m, s, acts + more) == Walk(m, Walk(m, s, acts), more)
    ensures CanWalk(m, s, acts + more) <==> CanWalk(m, s, acts) && CanWalk(m, Walk(m, s, acts), more)
    decreases |acts|
  {
    if acts == [] {
      assert acts + more == more;
    } else {
      assert (acts + more)[1..] == acts[1..] + more;
      WalkAppend(m, m.apply(s, acts[0]), acts[1..], more);
    }
  }

  lemma Regroup<X>(p: seq<X>, q: seq<X>, r: seq<X>)
    ensures p + q + r == p + (q + r)
  {
  }

  /** Executing one program after the other. */
  lemma {:induction false} TraceAppend<S, A>(m: Machine<S, A>, s: S, p: seq<Segment<S, A>>, q: seq<Segment<S, A>>)
    ensures Trace(m, s, p + q) == Trace(m, s, p) + Trace(m, Walk(m, s, Trace(m, s, p)), q)
    decreases |p|
  {
    if p == [] {
      assert p + q == q;
    } else {
      var taken := Taken(m, s, p[0]);
      var u := Walk(m, s, taken);
      TraceAppend(m, u, p[1..], q);
      TraceFirst(m, s, p);
      assert (p + q)[0] == p[0] && (p + q)[1..] == p[1..] + q;
      TraceFirst(m, s, p + q);
      WalkAppend(m, s, taken, Trace(m, u, p[1..]));
      Regroup(taken, Trace(m, u, p[1..]), Trace(m, Walk(m, u, Trace(m, u, p[1..])), q));
    }
  }

  lemma TraceFirst<S, A>(m: Machine<S, A>, s: S, p: seq<Segment<S, A>>)
    requires p != []
    ensures var taken := Taken(m, s, p[0]); Trace(m, s, p) == taken + Trace(m, Walk(m, s, taken), p[1..])
  {
  }

  lemma TraceOne<S, A>(m: Machine<S, A>, s: S, x: Segment<S, A>)
    ensures Trace(m, s, [x]) == Taken(m, s, x)
  {
    assert [x][1..] == [];
  }

  /** The thread has executed its program, from s to t: its own steps, each once and in this order, and in the pauses
      exactly those steps of the schedules that the others can take. */
  ghost predicate Does<S, A>(m: Machine<S, A>, s: S, program: seq<Segment<S, A>>, t: S)
  {
    CanWalk(m, s, Trace(m, s, program)) && t == Walk(m, s, Trace(m, s, program))
  }

  lemma DoesBoth<S, A>(m: Machine<S, A>, s: S, p: seq<Segment<S, A>>, t: S, q: seq<Segment<S, A>>, u: S)
    requires Does(m, s, p, t) && Does(m, t, q, u)
    ensures Does(m, s, p + q, u)
  {
    TraceAppend(m, s, p, q);
    WalkAppend(m, s, Trace(m, s, p), Trace(m, t, q));
  }

  lemma DoesStep<S, A>(m: Machine<S, A>, s: S, a: A)
    requires m.enabled(s, a)
    ensures Does(m, s, [Step(a)], m.apply(s, a))
  {
    TraceOne(m, s, Step(a));
    assert [a][1..] == [];
  }

  /** What it means to have executed a single step, or a single pause. */
  lemma StepDone<S, A>(m: Machine<S, A>, s: S, a: A, t: S)
    requires Does(m, s, [Step(a)], t)
    ensures m.enabled(s, a) && t == m.apply(s, a)
  {
    TraceOne(m, s, Step(a));
    var acts := [a];
    assert acts[0] == a && acts[1..] == [] && Trace(m, s, [Step(a)]) == acts;
    assert Walk(m, s, acts) == Walk(m, m.apply(s, a), []);
  }

  lemma PauseDone<S, A>(m: Machine<S, A>, s: S, schedule: seq<A>, t: S)
    requires Does(m, s, [Pause(schedule)], t)
    ensures t == Walk(m, s, Ran(m, s, schedule))
  {
    TraceOne(m, s, Pause(schedule));
  }

  lemma DoesNothing<S, A>(m: Machine<S, A>, s: S)
    ensures Does(m, s, [], s)
  {
  }

  /** The state calls for the steps of a program. */
  lemma DoesThen<S, A>(m: Machine<S, A>, s: S, steps: S -> seq<A>, program: seq<Segment<S, A>>, t: S)
    requires Does(m, s, program, t) && Trace(m, s, program) == steps(s)
    ensures Does(m, s, [Then(steps)], t)
  {
    TraceOne(m, s, Then(steps));
  }

  /** A program that has been executed has been executed part by part. */
  lemma DoesSplit<S, A>(m: Machine<S, A>, s: S, p: seq<Segment<S, A>>, q: seq<Segment<S, A>>, u: S) returns (t: S)
    requires Does(m, s, p + q, u)
    ensures Does(m, s, p, t) && Does(m, t, q, u)
  {
    TraceAppend(m, s, p, q);
    t := Walk(m, s, Trace(m, s, p));
    WalkAppend(m, s, Trace(m, s, p), Trace(m, t, q));
  }

  // ----- following a schedule, step by step -----

  /** After the first i steps of a schedule, of which ran have been taken. */
  ghost predicate Following<S, A>(m: Machine<S, A>, s0: S, schedule: seq<A>, i: nat, ran: seq<A>, s: S)
  {
    && i <= |schedule| && CanWalk(m, s0, ran) && s == Walk(m, s0, ran)
    && Ran(m, s0, schedule) == ran + Ran(m, s, schedule[i..])
  }

  lemma FollowNone<S, A>(m: Machine<S, A>, s: S, schedule: seq<A>)
    ensures Following(m, s, schedule, 0, [], s)
  {
    assert schedule[0..] == schedule;
  }

  lemma FollowOne<S, A>(m: Machine<S, A>, s0: S, schedule: seq<A>, i: nat, ran: seq<A>, s: S, t: S)
    returns (longer: seq<A>)
    requires Following(m, s0, schedule, i, ran, s) && i < |schedule|
    requires t == if Foreign(m, s, schedule[i]) then m.apply(s, schedule[i]) else s
    ensures Following(m, s0, schedule, i + 1, longer, t)
  {
    var a := schedule[i];
    assert schedule[i..][1..] == schedule[i + 1..];
    longer := ran;
    if Foreign(m, s, a) {
      assert [a][1..] == [];
      WalkAppend(m, s0, ran, [a]);
      longer := ran + [a];
    }
  }

  lemma FollowAll<S, A>(m: Machine<S, A>, s0: S, schedule: seq<A>, ran: seq<A>, s: S)
    requires Following(m, s0, schedule, |schedule|, ran, s)
    ensures Does(m, s0, [Pause(schedule)], s)
  {
    assert schedule[|schedule|..] == [];
    assert ran + [] == ran;
    TraceOne(m, s0, Pause(schedule));
  }

  /** Every step of the schedule is possible when its turn comes, and the others may take it. */
  ghost predicate AllForeign<S, A>(m: Machine<S, A>, s: S, schedule: seq<A>)
    decreases |schedule|
  {
    schedule == [] || (Foreign(m, s, schedule[0]) && AllForeign(m, m.apply(s, schedule[0]), schedule[1..]))
  }

  /** A schedule that can be followed is followed, to the end and with nothing added. */
  lemma {:induction false} FollowedEntirely<S, A>(m: Machine<S, A>, s: S, schedule: seq<A>)
    requires AllForeign(m, s, schedule)
    ensures Ran(m, s, schedule) == schedule && CanWalk(m, s, schedule)
    decreases |schedule|
  {
    if schedule != [] {
      FollowedEntirely(m, m.apply(s, schedule[0]), schedule[1..]);
    }
  }

  /** A step of a schedule is taken exactly if the others may take it when its turn comes. */
  lemma {:induction false} TakenInTurn<S, A>(m: Machine<S, A>, s: S, before: seq<A>, a: A, after: seq<A>)
    ensures var ran := Ran(m, s, before); var u := Walk(m, s, ran);
      Ran(m, s, before + [a] + after) ==
        ran + if Foreign(m, u, a) then [a] + Ran(m, m.apply(u, a), after) else Ran(m, u, after)
    decreases |before|
  {
    if before == [] {
      assert (before + [a] + after)[1..] == after;
    } else {
      assert (before + [a] + after)[1..] == before[1..] + [a] + after;
      TakenInTurn(m, if Foreign(m, s, before[0]) then m.apply(s, before[0]) else s, before[1..], a, after);
    }
  }

  // ----- whose steps a trace consists of -----

  predicate Plain<S, A>(program: seq<Segment<S, A>>)
  {
    forall k :: 0 <= k < |program| ==> !program[k].Then?
  }

  /** The thread's own steps. */
  ghost function OwnSteps<S, A>(program: seq<Segment<S, A>>): seq<A>
  {
    if program == [] then [] else (if program[0].Step? then [program[0].a] else []) + OwnSteps(program[1..])
  }

  /** Everything that is scheduled in its pauses. */
  ghost function Scheduled<S, A>(program: seq<Segment<S, A>>): seq<A>
  {
    if program == [] then [] else (if program[0].Pause? then program[0].schedule else []) + Scheduled(program[1..])
  }

  lemma {:induction false} RanWeight<S, A>(m: Machine<S, A>, s: S, schedule: seq<A>, weight: A -> nat)
    ensures Sum(Ran(m, s, schedule), weight) <= Sum(schedule, weight)
    decreases |schedule|
  {
    if schedule != [] {
      SumHead(schedule, weight);
      if Foreign(m, s, schedule[0]) {
        RanWeight(m, m.apply(s, schedule[0]), schedule[1..], weight);
        SumJoin([schedule[0]], Ran(m, m.apply(s, schedule[0]), schedule[1..]), weight);
        SumHead([schedule[0]], weight);
      } else {
        RanWeight(m, s, schedule[1..], weight);
      }
    }
  }

  /** However steps are weighed or counted: each own step is taken once, and besides them nothing but what is scheduled.
      */
  lemma {:induction false} TraceWeight<S, A>(m: Machine<S, A>, s: S, program: seq<Segment<S, A>>, weight: A -> nat)
    requires Plain(program)
    ensures Sum(OwnSteps(program), weight) <= Sum(Trace(m, s, program), weight)
         <= Sum(OwnSteps(program), weight) + Sum(Scheduled(program), weight)
    decreases |program|
  {
    if program != [] {
      var x, taken, rest := program[0], Taken(m, s, program[0]), program[1..];
      TraceWeight(m, Walk(m, s, taken), rest, weight);
      SumJoin(taken, Trace(m, Walk(m, s, taken), rest), weight);
      SumJoin(if x.Step? then [x.a] else [], OwnSteps(rest), weight);
      SumJoin(if x.Pause? then x.schedule else [], Scheduled(rest), weight);
      if x.Pause? {
        RanWeight(m, s, x.schedule, weight);
      }
    }
  }

  lemma {:induction false} RanMembers<S, A>(m: Machine<S, A>, s: S, schedule: seq<A>)
    ensures forall a :: a in Ran(m, s, schedule) ==> a in schedule
    decreases |schedule|
  {
    if schedule != [] {
      RanMembers(m, if Foreign(m, s, schedule[0]) then m.apply(s, schedule[0]) else s, schedule[1..]);
    }
  }

  lemma {:induction false} TraceMembers<S, A>(m: Machine<S, A>, s: S, program: seq<Segment<S, A>>)
    requires Plain(program)
    ensures forall a :: a in Trace(m, s, program) ==> a in OwnSteps(program) || a in Scheduled(program)
    decreases |program|
  {
    if program != [] {
      var taken := Taken(m, s, program[0]);
      TraceMembers(m, Walk(m, s, taken), program[1..]);
      if program[0].Pause? {
        RanMembers(m, s, program[0].schedule);
      }
    }
  }

  lemma {:induction false} OwnAppend<S, A>(p: seq<Segment<S, A>>, q: seq<Segment<S, A>>)
    ensures OwnSteps(p + q) == OwnSteps(p) + OwnSteps(q)
    decreases |p|
  {
    if p == [] {
      assert p + q == q;
    } else {
      var first := if p[0].Step? then [p[0].a] else [];
      assert (p + q)[0] == p[0] && (p + q)[1..] == p[1..] + q;
      OwnAppend(p[1..], q);
      Regroup(first, OwnSteps(p[1..]), OwnSteps(q));
    }
  }

  lemma {:induction false} ScheduledAppend<S, A>(p: seq<Segment<S, A>>, q: seq<Segment<S, A>>)
    ensures Scheduled(p + q) == Scheduled(p) + Scheduled(q)
    decreases |p|
  {
    if p == [] {
      assert p + q == q;
    } else {
      var first := if p[0].Pause? then p[0].schedule else [];
      assert (p + q)[0] == p[0] && (p + q)[1..] == p[1..] + q;
      ScheduledAppend(p[1..], q);
      Regroup(first, Scheduled(p[1..]), Scheduled(q));
    }
  }

  lemma AddStep<S, A>(p: seq<Segment<S, A>>, a: A)
    ensures OwnSteps(p + [Step(a)]) == OwnSteps(p) + [a] && Scheduled(p + [Step(a)]) == Scheduled(p)
    ensures Plain(p) ==> Plain(p + [Step(a)])
  {
    var x: seq<Segment<S, A>> := [Step(a)];
    OwnAppend(p, x);
    ScheduledAppend(p, x);
    assert x[1..] == [] && OwnSteps(x) == [a] + OwnSteps(x[1..]) && Scheduled(x) == [] + Scheduled(x[1..]);
  }

  lemma AddPause<S, A>(p: seq<Segment<S, A>>, schedule: seq<A>)
    ensures OwnSteps(p + [Pause(schedule)]) == OwnSteps(p)
    ensures Scheduled(p + [Pause(schedule)]) == Scheduled(p) + schedule
    ensures Plain(p) ==> Plain(p + [Pause(schedule)])
  {
    var x: seq<Segment<S, A>> := [Pause(schedule)];
    OwnAppend(p, x);
    ScheduledAppend(p, x);
    assert x[1..] == [] && OwnSteps(x) == [] + OwnSteps(x[1..]) && Scheduled(x) == schedule + Scheduled(x[1..]);
  }
}
