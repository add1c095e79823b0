/** Putting runs of the protocol together. */
module Runs {
  import opened Outbox
  import opened Protocol
  import opened LedgerClient

  lemma {:induction false} Extend(cfg: Config, hyp: set<Hypothesis>, s: System, steps: seq<Step>, step: Step)
    requires Legal(cfg, hyp, s, steps) && Allowed(cfg, hyp, Run(cfg, hyp, s, steps), step)
    ensures Legal(cfg, hyp, s, steps + [step])
    ensures Run(cfg, hyp, s, steps + [step]) == Apply(cfg, Run(cfg, hyp, s, steps), step)
    decreases |steps|
  {
    if steps == [] {
      assert steps + [step] == [step] && [step][1..] == [];
    } else {
      assert (steps + [step])[1..] == steps[1..] + [step];
      Extend(cfg, hyp, Apply(cfg, s, steps[0]), steps[1..], step);
    }
  }

  lemma {:induction false} Chain(cfg: Config, hyp: set<Hypothesis>, s: System, a: seq<Step>, b: seq<Step>)
    requires Legal(cfg, hyp, s, a) && Legal(cfg, hyp, Run(cfg, hyp, s, a), b)
    ensures Legal(cfg, hyp, s, a + b) && Run(cfg, hyp, s, a + b) == Run(cfg, hyp, Run(cfg, hyp, s, a), b)
    decreases |a|
  {
    if a == [] {
      assert a + b == b;
    } else {
      assert (a + b)[1..] == a[1..] + b;
      Chain(cfg, hyp, Apply(cfg, s, a[0]), a[1..], b);
    }
  }

  /** One more step of a run from `s0` that has reached `s`. */
  lemma Next(cfg: Config, hyp: set<Hypothesis>, s0: System, steps: seq<Step>, s: System, step: Step)
    returns (more: seq<Step>, t: System)
    requires Legal(cfg, hyp, s0, steps) && Run(cfg, hyp, s0, steps) == s
    requires Allowed(cfg, hyp, s, step)
    ensures more == steps + [step] && t == Apply(cfg, s, step)
    ensures Legal(cfg, hyp, s0, more) && Run(cfg, hyp, s0, more) == t
  {
    Extend(cfg, hyp, s0, steps, step);
    more, t := steps + [step], Apply(cfg, s, step);
  }

  /** No holder before `base` is overdue before `until`. */
  predicate OthersWait(cfg: Config, s: System, base: nat, until: int) {
    forall h :: 0 <= h < base && h < |s.holders| && Live(s.holders[h]) && Turn(s, h) ==>
      until <= StartOf(s, h) + cfg.perRowMs
  }

  /** The hypotheses that bound the time a row takes. */
  predicate OnTime(hyp: set<Hypothesis>) {
    Paced in hyp || Timely in hyp
  }

  /** The holder's call, up to its outcome `ok`. */
  lemma CallHolder(cfg: Config, hyp: set<Hypothesis>, s0: System, steps: seq<Step>, s: System, h: nat, d: Delivery)
    returns (more: seq<Step>, t: System)
    requires Legal(cfg, hyp, s0, steps) && Run(cfg, hyp, s0, steps) == s
    requires |s.expiries| == |s.rows| && h < |s.holders| && s.holders[h].phase == Claimed && Turn(s, h)
    ensures Legal(cfg, hyp, s0, more) && Run(cfg, hyp, s0, more) == t && steps <= more
    ensures var x := s.holders[h]; var (l, ok) := PostVia(s.ledger, x.req, d);
      t == SetPhase(s, h, Answered(ok)).(wire := s.wire + {x.req}, ledger := l)
  {
    var x := s.holders[h];
    var ok := PostVia(s.ledger, x.req, d).1;
    more, t := Sent(cfg, hyp, s0, steps, s, h);
    if d == ReplyLost || (d == Answers && !ok) {
      more, t := Landed(cfg, hyp, s0, more, t, h);
    }
    more, t := Next(cfg, hyp, s0, more, t, Answer(h, ok));
    assert t.holders == SetPhase(s, h, Answered(ok)).holders;
  }

  lemma Sent(cfg: Config, hyp: set<Hypothesis>, s0: System, steps: seq<Step>, s: System, h: nat)
    returns (more: seq<Step>, t: System)
    requires Legal(cfg, hyp, s0, steps) && Run(cfg, hyp, s0, steps) == s
    requires |s.expiries| == |s.rows| && h < |s.holders| && s.holders[h].phase == Claimed && Turn(s, h)
    ensures Legal(cfg, hyp, s0, more) && Run(cfg, hyp, s0, more) == t && steps <= more
    ensures t == SetPhase(s, h, Calling).(wire := s.wire + {s.holders[h].req})
  {
    more, t := Next(cfg, hyp, s0, steps, s, Send(h));
  }

  lemma Landed(cfg: Config, hyp: set<Hypothesis>, s0: System, steps: seq<Step>, s: System, h: nat)
    returns (more: seq<Step>, t: System)
    requires Legal(cfg, hyp, s0, steps) && Run(cfg, hyp, s0, steps) == s && |s.expiries| == |s.rows|
    requires h < |s.holders| && s.holders[h].phase == Calling && s.holders[h].req in s.wire
    ensures Legal(cfg, hyp, s0, more) && Run(cfg, hyp, s0, more) == t && steps <= more
    ensures t == s.(ledger := L.Rpc(s.ledger, s.holders[h].req).0)
  {
    more, t := Next(cfg, hyp, s0, steps, s, Land(s.holders[h].req));
  }

  /** A claimed holder sends, its call meets `d`, and it writes the outcome back, unless the write is lost. */
  lemma FinishHolder(
    cfg: Config, hyp: set<Hypothesis>, s0: System, steps: seq<Step>, s: System, h: nat, d: Delivery, lost: bool,
    reason: string)
    returns (more: seq<Step>, t: System)
    requires Legal(cfg, hyp, s0, steps) && Run(cfg, hyp, s0, steps) == s
    requires |s.expiries| == |s.rows| && h < |s.holders| && s.holders[h].phase == Claimed && Turn(s, h)
    requires Reliable in hyp ==> !lost
    requires MayWrite(cfg, s.holders[h], PostVia(s.ledger, s.holders[h].req, d).1, lost, s.now)
    ensures Legal(cfg, hyp, s0, more) && Run(cfg, hyp, s0, more) == t && steps <= more
    ensures var x := s.holders[h]; var (l, ok) := PostVia(s.ledger, x.req, d);
      var rows := if lost then s.rows else WrittenBack(cfg, s.rows, x, ok, reason, s.now);
      t == s.(
        rows := rows,
        checks := Watch(s.checks, rows),
        holders := s.holders[h := x.(phase := Finished, doneAt := s.now)],
        wire := s.wire + {x.req},
        ledger := l)
  {
    var x := s.holders[h];
    var (l, ok) := PostVia(s.ledger, x.req, d);
    var s1: System;
    more, s1 := CallHolder(cfg, hyp, s0, steps, s, h, d);
    more, t := Next(cfg, hyp, s0, more, s1, WriteBack(h, lost, reason));
    PhaseIrrelevant(cfg, s.rows, x, Answered(ok), ok, reason, s.now);
    assert t.holders == s.holders[h := x.(phase := Finished, doneAt := s.now)];
  }

  lemma PhaseIrrelevant(cfg: Config, rows: seq<Row>, x: Holder, phase: Phase, ok: bool, reason: string, now: int)
    ensures WrittenBack(cfg, rows, x.(phase := phase), ok, reason, now) == WrittenBack(cfg, rows, x, ok, reason, now)
  {
  }

}
