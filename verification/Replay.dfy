/**
 Refinement between the two accountants: replaying the simulator's fills through the live ledger
 reproduces the simulator's own cash and position, whatever the strategy asked for.
 */
module Replay {
  import opened Market
  import opened Engine
  import opened EngineLaws
  import opened Ledgers

  /** One fill that respects the clamp moves both accountants alike. */
  lemma SameFillSameBooks(account: Account, l: Ledger, f: Fill)
    requires l.cash == account.cash && l.units == account.units && account.units >= 0.0
    ensures var a, m := Settle(account, f, f.order.sizeUsd), Apply(l, f);
            m.cash == a.cash && m.units == a.units
  {
  }

  /** For every strategy, cost model and fill mode, with no feasibility assumption. */
  lemma {:induction false} ReplayRefinesEngine(bars: seq<Bar>, setup: Setup)
    ensures var run := Run(bars, setup);
            var l := ApplyAll(Open(setup.initial), run.record.fills);
            l.cash == run.account.cash && l.units == run.account.units
  {
    if bars != [] {
      var init := bars[..|bars| - 1];
      ReplayRefinesEngine(init, setup);
      var fill := BarEffect(bars, setup);
      if fill.Some? {
        ReplayOneMore(Run(init, setup), Run(bars, setup), fill.value, setup.initial);
      }
    }
  }

  lemma ReplayOneMore(s: Sim, t: Sim, f: Fill, initial: real)
    requires BarEffected(s, t, Some(f))
    requires var l := ApplyAll(Open(initial), s.record.fills);
             l.cash == s.account.cash && l.units == s.account.units
    ensures var l := ApplyAll(Open(initial), t.record.fills);
            && l.cash == t.account.cash && l.units == t.account.units
            && TotalMinted(Open(initial), t.record.fills) - TotalMinted(Open(initial), s.record.fills)
               == Minted(ApplyAll(Open(initial), s.record.fills), f)
  {
    assert t.record.fills[..|t.record.fills| - 1] == s.record.fills;
    SameFillSameBooks(s.account, ApplyAll(Open(initial), s.record.fills), f);
  }

  /** On the simulator's fills the ledger mints at most one tolerance per sell. */
  lemma {:induction false} EngineFillsBarelyMint(bars: seq<Bar>, setup: Setup)
    ensures var fills := Run(bars, setup).record.fills;
            0.0 <= TotalMinted(Open(setup.initial), fills) <= TOLERANCE * Sum(fills, SellOf)
  {
    if bars != [] {
      var init := bars[..|bars| - 1];
      EngineFillsBarelyMint(init, setup);
      ReplayRefinesEngine(init, setup);
      var fill := BarEffect(bars, setup);
      if fill.Some? {
        ReplayOneMore(Run(init, setup), Run(bars, setup), fill.value, setup.initial);
        SumAppend(Run(init, setup).record.fills, fill.value, SellOf);
      }
    }
  }
}
