// Sequences of the agent's single steps, from one state to another.
module Steps {
  import opened Entities
  import opened Pipeline

  // acts, one after another, lead from s to s'.
  ghost predicate Leads(cfg: Config, s: World, acts: seq<Action>, s': World)
    decreases |acts|
  {
    if acts == [] then s == s'
    else Enabled(cfg, acts[0], s) && Leads(cfg, Apply(cfg, false, acts[0], s), acts[1..], s')
  }

  lemma NoSteps(cfg: Config, s: World)
    ensures Leads(cfg, s, [], s)
  {
  }

  lemma OneThen(cfg: Config, s: World, a: Action, mid: World, acts: seq<Action>, s': World)
    requires Enabled(cfg, a, s) && Apply(cfg, false, a, s) == mid && Leads(cfg, mid, acts, s')
    ensures Leads(cfg, s, [a] + acts, s')
  {
    hide Apply, Enabled;
    assert ([a] + acts)[1..] == acts;
  }

  lemma OneStep(cfg: Config, s: World, a: Action, s': World)
    requires Enabled(cfg, a, s) && Apply(cfg, false, a, s) == s'
    ensures Leads(cfg, s, [a], s')
  {
    hide Apply, Enabled;
    NoSteps(cfg, s');
    OneThen(cfg, s, a, s', [], s');
    assert [a] + [] == [a];
  }

  lemma {:induction false} LeadsOn(cfg: Config, s: World, acts: seq<Action>, mid: World, more: seq<Action>, s': World)
    requires Leads(cfg, s, acts, mid) && Leads(cfg, mid, more, s')
    ensures Leads(cfg, s, acts + more, s')
    decreases |acts|
  {
    hide Apply, Enabled;
    if acts == [] {
      assert acts + more == more;
    } else {
      LeadsOn(cfg, Apply(cfg, false, acts[0], s), acts[1..], mid, more, s');
      assert (acts + more)[1..] == acts[1..] + more;
    }
  }

  lemma ThenOne(cfg: Config, s: World, acts: seq<Action>, mid: World, a: Action, s': World)
    requires Leads(cfg, s, acts, mid) && Enabled(cfg, a, mid) && Apply(cfg, false, a, mid) == s'
    ensures Leads(cfg, s, acts + [a], s')
  {
    hide Apply, Enabled, Leads;
    OneStep(cfg, mid, a, s');
    LeadsOn(cfg, s, acts, mid, [a], s');
  }

  // Steps of an agent for which everything goes well: reading, sending, receipts and saves.
  predicate Onward(a: Action) {
    || a.Open? || a == ReadLine || a == CloseFile
    || a == Receive || a == Tick || a == Receipt || a == SetPosition || a == Save(true)
  }

  predicate Onwards(acts: seq<Action>) {
    forall i :: 0 <= i < |acts| ==> Onward(acts[i])
  }
}
