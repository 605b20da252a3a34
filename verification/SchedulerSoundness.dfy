/** Passes and the scheduler together: one connection in a process whose polls, verdicts, writes and
    other passes interleave as they may, whose passes do what ClusterPass does from the status the
    scheduler handed them, and which may stop and start again at any moment. */
module SchedulerSoundness {
  import opened Text
  import opened Api
  import opened SchedulerMemory
  import Config
  import ServerSideApply
  import SchedulerStructure
  import Reconcile = Pass
  import S = SchedulerModel
  import P = PassProperties

  /** The scheduler, and the history of one connection. */
  datatype Joint = Joint(s: S.System, h: P.History)

  datatype Event =
    | Schedules(step: S.Step)
    | Reconciles(id: nat, env: Reconcile.PassEnv)
    | Outside(happening: P.Happening)
    | Restarts(now: int, handled: set<S.Handled>)

  /** Started on the connection, and not back yet. */
  predicate AtIt(s: S.System, id: nat, name: string) {
    && id in s.passes && s.passes[id].phase == S.Started && s.passes[id].cluster.name == name
    && s.passes[id].ref in s.book.cells
  }

  /** Passes of this connection come back only with what ClusterPass returns. */
  ghost predicate Possible(j: Joint, name: string, e: Event) {
    match e
    case Schedules(step) => S.Enabled(j.s, step) && !ReturnsFor(j.s, step, name)
    case Reconciles(id, env) => AtIt(j.s, id, name) && env.OthersAreForeign() && env.now > 0
    case Outside(happening) => (happening.OthersAct? || happening.DownstreamMoves?) && P.Possible(j.h, happening)
    case Restarts(_, _) => true
  }

  /** What the pass makes of the world it finds and the status it was handed. */
  function Outcome(j: Joint, ns: string, id: nat, env: Reconcile.PassEnv): Reconcile.Finished
    requires id in j.s.passes
  {
    var pass := j.s.passes[id];
    Reconcile.ClusterPass(j.h.w, ns, pass.cluster, pass.prior, pass.generation, env)
  }

  function Returned(j: Joint, ns: string, id: nat, env: Reconcile.PassEnv): S.Step
    requires id in j.s.passes
  {
    var r := Outcome(j, ns, id, env);
    S.Return(id, r.st, r.failure.Some?)
  }

  function Passed(j: Joint, ns: string, id: nat, env: Reconcile.PassEnv): P.History
    requires id in j.s.passes
  {
    var pass := j.s.passes[id];
    P.Next(P.Next(j.h, ns, P.Rewound(pass.prior)), ns, P.Passes(pass.cluster, pass.generation, env, true))
  }

  lemma ReturnedIsEnabled(j: Joint, ns: string, name: string, id: nat, env: Reconcile.PassEnv)
    requires AtIt(j.s, id, name)
    ensures S.PassEnabled(j.s, Returned(j, ns, id, env))
  {
    var pass := j.s.passes[id];
    P.ReportsItsGeneration(j.h.w, ns, pass.cluster, pass.prior, pass.generation, env);
  }

  ghost function Next(j: Joint, ns: string, name: string, e: Event): Joint
    requires Possible(j, name, e)
  {
    match e
    case Schedules(step) => j.(s := S.Next(j.s, step))
    case Reconciles(id, env) =>
      ReturnedIsEnabled(j, ns, name, id, env);
      Joint(S.Next(j.s, Returned(j, ns, id, env)), Passed(j, ns, id, env))
    case Outside(happening) => j.(h := P.Next(j.h, ns, happening))
    case Restarts(now, handled) => j.(s := S.Begin(now, j.s.api, handled))
  }

  /** All the scheduler has of the connection is on record, and what is on record is sound. */
  ghost predicate Sound(j: Joint, name: string) {
    && SchedulerStructure.Structure(j.s) && P.Sound(j.h) && EmptyStatus in j.h.recorded
    && Remembers(j.s, name, j.h.recorded)
  }

  lemma SchedulingKeepsSound(j: Joint, ns: string, name: string, step: S.Step)
    requires Sound(j, name) && Possible(j, name, Schedules(step))
    ensures Sound(Next(j, ns, name, Schedules(step)), name)
  {
    SchedulerStructure.StepKeepsStructure(j.s, step);
    StepRemembers(j.s, step, name, j.h.recorded);
  }

  lemma PriorIsOnRecord(j: Joint, name: string, id: nat)
    requires Sound(j, name) && AtIt(j.s, id, name)
    ensures P.Possible(j.h, P.Rewound(j.s.passes[id].prior))
  {
    assert KeptPass(j.h.recorded, name, j.s.passes[id]);
    var q :| q in j.h.recorded && SameRecord(q, j.s.passes[id].prior);
    assert P.SameMemory(q, j.s.passes[id].prior);
  }

  lemma ReconcilingKeepsSound(j: Joint, ns: string, name: string, id: nat, env: Reconcile.PassEnv)
    requires Sound(j, name) && Possible(j, name, Reconciles(id, env))
    ensures Sound(Next(j, ns, name, Reconciles(id, env)), name)
  {
    var pass := j.s.passes[id];
    PriorIsOnRecord(j, name, id);
    var rewound := P.Next(j.h, ns, P.Rewound(pass.prior));
    P.NextKeepsSound(j.h, ns, P.Rewound(pass.prior));
    P.NextKeepsSound(rewound, ns, P.Passes(pass.cluster, pass.generation, env, true));
    ReturnedIsEnabled(j, ns, name, id, env);
    StepBrings(j.s, Returned(j, ns, id, env), name, j.h.recorded, Passed(j, ns, id, env).recorded);
  }

  lemma RestartingKeepsSound(j: Joint, ns: string, name: string, now: int, handled: set<S.Handled>)
    requires Sound(j, name)
    ensures Sound(Next(j, ns, name, Restarts(now, handled)), name)
  {
    BeginRemembers(now, j.s.api, handled, name);
  }

  lemma NextKeepsSound(j: Joint, ns: string, name: string, e: Event)
    requires Sound(j, name) && Possible(j, name, e)
    ensures Sound(Next(j, ns, name, e), name)
  {
    match e {
      case Schedules(step) => SchedulingKeepsSound(j, ns, name, step);
      case Reconciles(id, env) => ReconcilingKeepsSound(j, ns, name, id, env);
      case Outside(happening) => P.NextKeepsSound(j.h, ns, happening);
      case Restarts(now, handled) => RestartingKeepsSound(j, ns, name, now, handled);
    }
  }

  ghost function Run(j: Joint, ns: string, name: string, events: seq<Event>): Joint
    requires PossibleRun(j, ns, name, events)
    decreases |events|, 1
  {
    if events == [] then j
    else Next(Run(j, ns, name, events[..|events| - 1]), ns, name, events[|events| - 1])
  }

  ghost predicate PossibleRun(j: Joint, ns: string, name: string, events: seq<Event>)
    decreases |events|, 0
  {
    events != [] ==>
      PossibleRun(j, ns, name, events[..|events| - 1])
      && Possible(Run(j, ns, name, events[..|events| - 1]), name, events[|events| - 1])
  }

  lemma {:induction false} RunsStaySound(j: Joint, ns: string, name: string, events: seq<Event>)
    requires Sound(j, name) && PossibleRun(j, ns, name, events)
    ensures Sound(Run(j, ns, name, events), name)
  {
    if events != [] {
      RunsStaySound(j, ns, name, events[..|events| - 1]);
      NextKeepsSound(Run(j, ns, name, events[..|events| - 1]), ns, name, events[|events| - 1]);
    }
  }

  /** A process that starts with the connection's object absent, or with nothing on record. */
  function Start(now: int, api: Objects, handled: set<S.Handled>, w: Reconcile.World): Joint {
    Joint(S.Begin(now, api, handled), P.History(w, EmptyStatus, {EmptyStatus}, {}))
  }

  lemma StartIsSound(now: int, api: Objects, handled: set<S.Handled>, w: Reconcile.World, name: string)
    requires (forall n :: n in api ==> api[n].name == n) && Carried(api, name) <= {EmptyStatus}
    requires ServerSideApply.Live(w.secret).WellFormed() && P.UidsBelow(w.downstream)
    requires ServerSideApply.Live(w.secret).Owned(Registration) == ServerSideApply.Live(w.secret).Owned(Credential) == {}
    ensures Sound(Start(now, api, handled, w), name)
  {
    BeginRemembers(now, api, handled, name);
    MoreIsKnown(S.Begin(now, api, handled), name, Carried(api, name), {EmptyStatus});
  }

  /** Whatever the scheduler does in between and however often it is started anew: a pass that ends
      up to date on a recorded digest, going by the status it was handed, has seen in the Secret a
      credential that a pass of this run minted for that server and CA and saw accepted, and that is
      not past half its life. */
  lemma UpToDateIsSoundInEveryInterleaving(now: int, api: Objects, handled: set<S.Handled>, w: Reconcile.World, ns: string,
                                           name: string, events: seq<Event>, id: nat, env: Reconcile.PassEnv)
    returns (m: P.Mint)
    requires (forall n :: n in api ==> api[n].name == n) && Carried(api, name) <= {EmptyStatus}
    requires ServerSideApply.Live(w.secret).WellFormed() && P.UidsBelow(w.downstream)
    requires ServerSideApply.Live(w.secret).Owned(Registration) == ServerSideApply.Live(w.secret).Owned(Credential) == {}
    requires PossibleRun(Start(now, api, handled, w), ns, name, events)
    requires var j := Run(Start(now, api, handled, w), ns, name, events);
      && Possible(j, name, Reconciles(id, env)) && j.s.passes[id].prior.appliedCredentialHash != NoDigest
      && Outcome(j, ns, id, env).failure == None && Outcome(j, ns, id, env).st.lastAction == UpToDate
    ensures var j := Run(Start(now, api, handled, w), ns, name, events);
      && m in j.h.mints && m.server == j.s.passes[id].cluster.ServerURL() && m.ca == env.ca && P.BeforeHalfLife(m, env.now)
      && var after := Outcome(j, ns, id, env).w;
         P.Publishes(after.secret, m) && (P.Alive(m, after.downstream) <==> P.Alive(m, j.h.w.downstream))
  {
    StartIsSound(now, api, handled, w, name);
    RunsStaySound(Start(now, api, handled, w), ns, name, events);
    m := UpToDateFromHere(Run(Start(now, api, handled, w), ns, name, events), ns, name, id, env);
  }

  lemma UpToDateFromHere(j: Joint, ns: string, name: string, id: nat, env: Reconcile.PassEnv) returns (m: P.Mint)
    requires Sound(j, name) && Possible(j, name, Reconciles(id, env)) && j.s.passes[id].prior.appliedCredentialHash != NoDigest
    requires Outcome(j, ns, id, env).failure == None && Outcome(j, ns, id, env).st.lastAction == UpToDate
    ensures m in j.h.mints && m.server == j.s.passes[id].cluster.ServerURL() && m.ca == env.ca && P.BeforeHalfLife(m, env.now)
    ensures var after := Outcome(j, ns, id, env).w;
      P.Publishes(after.secret, m) && (P.Alive(m, after.downstream) <==> P.Alive(m, j.h.w.downstream))
  {
    var pass := j.s.passes[id];
    PriorIsOnRecord(j, name, id);
    P.NextKeepsSound(j.h, ns, P.Rewound(pass.prior));
    m := P.UpToDateFromHere(P.Next(j.h, ns, P.Rewound(pass.prior)), ns, pass.cluster, pass.generation, env);
  }
}
