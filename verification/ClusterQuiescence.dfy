/** How much gossip a run of the whole cluster can cause. */
module ClusterQuiescence {
  import opened Wire
  import opened Protocol
  import opened ProtocolInvariant
  import opened ProtocolLaws
  import opened Quiescence
  import opened Cluster
  import opened ClusterLaws

  /** The step changes no member. */
  predicate Idle(step: Step) {
    step.Publish? || step.TimerFires? || step.ProbeFails?
  }

  /** The event that the step is for the member taking it. */
  function EventOf(self: Name, step: Step): Event
    requires !Idle(step)
  {
    if Receives(step) then Receive(Input(self, step), step.env)
    else if step.Gossip? then Send(step.keep)
    else if step.LeaveCluster? then LeaveNow(step.env)
    else UpdateNow(step.env)
  }

  lemma {:induction false} MovedIsApplied(m: Member, step: Step)
    requires m.Self() in m.table
    ensures Moved(m, step) == if Idle(step) then m else Apply(m, EventOf(m.Self(), step))
  {
    hide Handle, Leave, Update, Retain;
  }

  /** The addresses of everybody but `a`. */
  function Others(s: State, a: Name): map<Name, Address> {
    map x | x in s.nodes && x != a :: s.nodes[x].m.cfg.addr
  }

  ghost predicate CountersUpTo(s: State, bound: U32) {
    forall x :: x in s.nodes ==> s.nodes[x].m.counter <= bound
  }

  lemma {:induction false} ForwardKeys(s: State, s': State)
    requires Forward(s, s')
    ensures s.nodes.Keys == s'.nodes.Keys
  {
  }

  lemma {:induction false} ForwardAt(s: State, s': State, x: Name)
    requires Forward(s, s') && x in s.nodes && x in s.nodes[x].m.table
    ensures x in s'.nodes && s.nodes[x].m.counter <= s'.nodes[x].m.counter && s.nodes[x].m.cfg == s'.nodes[x].m.cfg
  {
  }

  lemma {:induction false} EarlierCounters(s: State, s': State, bound: U32)
    requires ClusterInv(s) && Forward(s, s') && CountersUpTo(s', bound)
    ensures CountersUpTo(s, bound)
    ensures forall a :: Others(s, a) == Others(s', a)
  {
    hide ClusterInv, Forward;
    forall x | x in s.nodes
      ensures x in s'.nodes && s.nodes[x].m.counter <= bound && s.nodes[x].m.cfg == s'.nodes[x].m.cfg
    {
      SelfKnown(s, x);
      ForwardAt(s, s', x);
    }
    ForwardKeys(s, s');
  }

  lemma {:induction false} OwnBounded(s: State, x: Name, bound: U32)
    requires ClusterInv(s) && CountersUpTo(s, bound) && x in s.nodes
    ensures x in s.nodes[x].m.table && Own(s, x) <= bound
  {
    hide ClusterInv, InOrder, NodeOk;
    MemberOf(s, x);
  }

  /** What a member knows, and what a step tells it, stays below the counters. */
  lemma {:induction false} KnownBelowCounters(s: State, a: Name, bound: U32)
    requires ClusterInv(s) && CountersUpTo(s, bound) && a in s.nodes
    ensures AllKnown(s.nodes[a].m, Others(s, a), bound)
  {
    hide ClusterInv;
    var m := s.nodes[a].m;
    forall x | x in Others(s, a) ensures Known(m, x, Others(s, a)[x], bound) {
      if x in m.table {
        RecordOf(s, a, x);
        OwnBounded(s, x, bound);
      }
    }
  }

  lemma {:induction false} SaidBelowCounters(s: State, step: Step, bound: U32)
    requires ClusterInv(s) && Enabled(s, step) && CountersUpTo(s, bound) && !Idle(step)
    ensures s.nodes[step.at].m.Self() == step.at
    ensures Mentions(step.at, EventOf(step.at, step), Others(s, step.at), bound)
  {
    hide ClusterInv, InOrder, NodeOk, Input;
    MemberOf(s, step.at);
    if Receives(step) {
      InputOk(s, step);
      OwnBounded(s, Input(step.at, step).node, bound);
    }
  }

  lemma {:induction false} StepPays(s: State, step: Step, a: Name, xs: seq<Name>, bound: U32)
    requires ClusterInv(s) && Enabled(s, step) && CountersUpTo(s, bound) && bound < UINT32_MAX - 1 && a in s.nodes
    requires Lists(xs, a, Others(s, a))
    ensures a in Next(s, step).nodes
    ensures var m, m' := s.nodes[a].m, Next(s, step).nodes[a].m;
            TotalPotential(m, xs) + OwnPotential(m) + (m'.submitted - m.submitted) <=
            TotalPotential(m', xs) + OwnPotential(m')
  {
    hide ClusterInv, InOrder, NodeOk, Next, Moved, Input, Apply, Lists, TotalPotential, OwnPotential, Mentions,
         AllKnown;
    NextAt(s, step, a);
    if a == step.at {
      MemberOf(s, a);
      MovedIsApplied(s.nodes[a].m, step);
      if !Idle(step) {
        KnownBelowCounters(s, a, bound);
        SaidBelowCounters(s, step, bound);
        EventPays(s.nodes[a].m, EventOf(a, step), xs, Others(s, a), bound);
      }
    }
  }

  lemma {:induction false} RunOfClusterPays(s: State, steps: seq<Step>, a: Name, xs: seq<Name>, bound: U32)
    requires ClusterInv(s) && Runs(s, steps) && CountersUpTo(After(s, steps), bound) && bound < UINT32_MAX - 1
    requires a in s.nodes && Lists(xs, a, Others(s, a))
    ensures a in After(s, steps).nodes
    ensures var m, m' := s.nodes[a].m, After(s, steps).nodes[a].m;
            TotalPotential(m, xs) + OwnPotential(m) + (m'.submitted - m.submitted) <=
            TotalPotential(m', xs) + OwnPotential(m')
    decreases |steps|
  {
    hide ClusterInv, Next, Enabled, Lists, TotalPotential, OwnPotential, CountersUpTo, Forward, Others;
    if steps != [] {
      var s1 := Next(s, steps[0]);
      NextKeeps(s, steps[0]);
      RunKeepsCluster(s1, steps[1..]);
      EarlierCounters(s1, After(s1, steps[1..]), bound);
      EarlierCounters(s, s1, bound);
      StepPays(s, steps[0], a, xs, bound);
      RunOfClusterPays(s1, steps[1..], a, xs, bound);
    }
  }

  lemma {:induction false} ListOf(names: set<Name>) returns (xs: seq<Name>)
    ensures NoDuplicates(xs) && |xs| == |names| && forall x :: x in xs <==> x in names
  {
    if names == {} {
      xs := [];
    } else {
      var x :| x in names;
      xs := ListOf(names - {x});
      xs := xs + [x];
    }
  }

  lemma {:induction false} StartSubmitsOnce(s0: State, a: Name)
    requires Init(s0) && a in s0.nodes
    ensures s0.nodes[a].m.submitted == 1 && OwnPotential(s0.nodes[a].m) == 1
  {
    var env, cfg: Config :| s0.nodes[a] == Node(Start(cfg, env), {}) && cfg.name == a;
    StartKeeps(cfg, env);
  }

  lemma {:induction false} OthersListed(s: State, a: Name) returns (xs: seq<Name>)
    requires a in s.nodes
    ensures Lists(xs, a, Others(s, a)) && |xs| == |s.nodes| - 1
  {
    var others := s.nodes.Keys - {a};
    assert others + {a} == s.nodes.Keys && |s.nodes.Keys| == |s.nodes|;
    xs := ListOf(others);
  }

  lemma {:induction false} PotentialBounded(s: State, a: Name, xs: seq<Name>, bound: U32)
    requires ClusterInv(s) && CountersUpTo(s, bound) && a in s.nodes && Lists(xs, a, Others(s, a))
    ensures TotalPotential(s.nodes[a].m, xs) + OwnPotential(s.nodes[a].m) <= |xs| * (258 * (3 * bound + 3)) + bound + 1
  {
    KnownBelowCounters(s, a, bound);
    MemberOf(s, a);
    hide ClusterInv, TotalPotential, AllKnown, InOrder, NodeOk, SelfOk;
    TotalBounded(s.nodes[a].m, xs, Others(s, a), bound);
  }

  /** Quiescence of the cluster: if no counter ends up above `bound`, every member has submitted at most
      n * 258 * (3 * bound + 3) + bound + 1 broadcasts, n being the number of the others, however long the run and
      whatever was lost, repeated or reordered. */
  lemma {:induction false} ClusterQuiesces(s0: State, steps: seq<Step>, a: Name, bound: U32)
    requires Init(s0) && Runs(s0, steps) && a in s0.nodes
    requires CountersUpTo(After(s0, steps), bound) && bound < UINT32_MAX - 1
    ensures a in After(s0, steps).nodes
    ensures After(s0, steps).nodes[a].m.submitted <= (|s0.nodes| - 1) * (258 * (3 * bound + 3)) + bound + 1
  {
    hide Init, Runs, After, ClusterInv, Forward, CountersUpTo, TotalPotential, OwnPotential, Lists, Others;
    InitKeeps(s0);
    RunKeepsCluster(s0, steps);
    StartSubmitsOnce(s0, a);
    var xs := OthersListed(s0, a);
    RunOfClusterPays(s0, steps, a, xs, bound);
    EarlierCounters(s0, After(s0, steps), bound);
    PotentialBounded(After(s0, steps), a, xs, bound);
  }
}
