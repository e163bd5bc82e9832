/** The total of all balances under interleaving: when stale copies create or destroy money, and when they do not. */
module Conservation {
  import opened Types
  import opened Store
  import opened Settlement
  import opened Ledger
  import opened Concurrent
  import opened Serializability

  function Stored(accounts: map<string, Account>, v: string): int {
    if v in accounts then accounts[v].balance else 0
  }

  /** By how much the copies an event saves exceed what they overwrite, debit and credit set aside. */
  function Drift(s: Sys, e: Event): int {
    if !Inserting(s, e) || !s.threads[e.tid].pc.Committing? then 0
    else
      var t := s.threads[e.tid];
      var p := t.job.req.instruction;
      if p.senderVpa != p.receiverVpa then
        (t.pc.sender.balance - Stored(s.db.accounts, p.senderVpa))
        + (t.pc.receiver.balance - Stored(s.db.accounts, p.receiverVpa))
      else t.pc.receiver.balance + p.amount - Stored(s.db.accounts, p.receiverVpa)
  }

  lemma {:induction false} EventMovesTotal(s: Sys, e: Event)
    requires Inv(s) && AllKnown(s) && !e.ResetDb?
    ensures Total(Apply(s, e).db.accounts) == Total(s.db.accounts) + Drift(s, e)
  {
    MoneyMovesOnlyWithItsRow(s, e);
    if Inserting(s, e) && s.threads[e.tid].pc.Committing? {
      var t := s.threads[e.tid];
      assert Known(s, t) && Coherent(t);
      SaveBothTotal(s.db.accounts, t.pc.sender, t.pc.receiver, t.job.req.instruction.amount);
    }
  }

  ghost function Drifts(s: Sys, events: seq<Event>): int {
    if events == [] then 0
    else
      var init, last := events[..|events| - 1], events[|events| - 1];
      Drifts(s, init) + Drift(Run(s, init), last)
  }

  /** What a whole run creates or destroys. */
  lemma {:induction false} RunMovesTotal(s: Sys, events: seq<Event>)
    requires Start(s) && NoReset(events)
    ensures Total(Run(s, events).db.accounts) == Total(s.db.accounts) + Drifts(s, events)
  {
    if events != [] {
      var init, last := events[..|events| - 1], events[|events| - 1];
      RunMovesTotal(s, init);
      RunKeepsInv(s, init);
      RunKeepsKnown(s, init);
      EventMovesTotal(Run(s, init), last);
    }
  }

  /** The copies a commit saves are worth together what it overwrites. A self-payment balances only when its
      copy is stale by exactly the amount. */
  ghost predicate Balanced(s: Sys, tid: nat)
    requires tid < |s.threads|
  {
    var t := s.threads[tid];
    var p := t.job.req.instruction;
    t.pc.Committing? ==>
      && p.senderVpa in s.db.accounts && p.receiverVpa in s.db.accounts
      && var stored := s.db.accounts;
         if p.senderVpa != p.receiverVpa then
           t.pc.sender.balance + t.pc.receiver.balance == stored[p.senderVpa].balance + stored[p.receiverVpa].balance
         else t.pc.receiver.balance + p.amount == stored[p.receiverVpa].balance
  }

  /** An insert keeps the total exactly when it is a rejection or its copies balance. */
  lemma {:induction false} BalancedInsertConserves(s: Sys, e: Event)
    requires Inv(s) && AllKnown(s) && Inserting(s, e)
    ensures Total(Apply(s, e).db.accounts) == Total(s.db.accounts) <==> Balanced(s, e.tid)
  {
    assert Known(s, s.threads[e.tid]) && Coherent(s.threads[e.tid]);
    EventMovesTotal(s, e);
  }

  ghost predicate BalancedThroughout(s: Sys, events: seq<Event>) {
    events == [] ||
    var init, last := events[..|events| - 1], events[|events| - 1];
    BalancedThroughout(s, init) && (Inserting(Run(s, init), last) ==> Balanced(Run(s, init), last.tid))
  }

  ghost predicate ConservedThroughout(s: Sys, events: seq<Event>) {
    && Total(Run(s, events).db.accounts) == Total(s.db.accounts)
    && (events == [] || ConservedThroughout(s, events[..|events| - 1]))
  }

  /** The bank holds the same total after every event exactly when every insert balances. */
  lemma {:induction false} ConservedExactlyWhenBalanced(s: Sys, events: seq<Event>)
    requires Start(s) && NoReset(events)
    ensures ConservedThroughout(s, events) <==> BalancedThroughout(s, events)
  {
    if events != [] {
      var init, last := events[..|events| - 1], events[|events| - 1];
      ConservedExactlyWhenBalanced(s, init);
      RunKeepsInv(s, init);
      RunKeepsKnown(s, init);
      MoneyMovesOnlyWithItsRow(Run(s, init), last);
      if Inserting(Run(s, init), last) {
        BalancedInsertConserves(Run(s, init), last);
      }
    }
  }
}
