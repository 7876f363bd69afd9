/** The ledger agrees with the balances, the running balances chain, and money is conserved. */
module Accounts {
  import opened Wrappers
  import opened Tables
  import opened Limits
  import opened Operations
  import opened History
  import opened MapSum

  /** What each wallet was registered with. */
  function Seeds(h: seq<Entry>): map<WalletId, int> {
    if h == [] then map[]
    else
      var seeds, e := Seeds(h[..|h| - 1]), h[|h| - 1];
      if e.Registered? then seeds[e.id := e.wallet.balance] else seeds
  }

  /** Sum of the signed amounts of one wallet. */
  function SumSigned(l: seq<LedgerEntry>, w: WalletId): int {
    if l == [] then 0
    else SumSigned(l[..|l| - 1], w) + if l[|l| - 1].wallet == w then l[|l| - 1].signed else 0
  }

  lemma SumAppends(l: seq<LedgerEntry>, e: LedgerEntry, w: WalletId)
    ensures SumSigned(l + [e], w) == SumSigned(l, w) + if e.wallet == w then e.signed else 0
  {
    assert (l + [e])[..|l|] == l;
  }

  /** Every balance is non-negative, and is the seed plus the signed ledger amounts. */
  predicate Balanced(wallets: map<WalletId, Wallet>, l: seq<LedgerEntry>, seeds: map<WalletId, int>) {
    && wallets.Keys == seeds.Keys
    && (forall w :: w in wallets ==>
          wallets[w].balance >= 0 && wallets[w].balance == seeds[w] + SumSigned(l, w))
  }

  predicate Explained(db: Db, seeds: map<WalletId, int>) {
    Balanced(db.wallets, db.ledger, seeds) && Chained(db.ledger, seeds)
  }

  /** The CHECK constraints of ledger_entries, and in append order the running balance:
      balanceAfter is what seed and entries up to this one add up to. */
  predicate EntryBalanced(l: seq<LedgerEntry>, i: nat, seeds: map<WalletId, int>)
    requires i < |l|
  {
    && l[i].wallet in seeds
    && l[i].amount > 0 && l[i].signed == (if l[i].direction == Debit then -l[i].amount else l[i].amount)
    && l[i].balanceAfter >= 0
    && l[i].balanceAfter == seeds[l[i].wallet] + SumSigned(l[..i + 1], l[i].wallet)
  }

  predicate Chained(l: seq<LedgerEntry>, seeds: map<WalletId, int>) {
    forall i :: 0 <= i < |l| ==> EntryBalanced(l, i, seeds)
  }

  lemma ChainAppends(l: seq<LedgerEntry>, e: LedgerEntry, seeds: map<WalletId, int>)
    requires Chained(l, seeds) && EntryBalanced(l + [e], |l|, seeds)
    ensures Chained(l + [e], seeds)
  {
    forall i | 0 <= i < |l| + 1 ensures EntryBalanced(l + [e], i, seeds) {
      if i < |l| {
        assert EntryBalanced(l, i, seeds);
        assert (l + [e])[..i + 1] == l[..i + 1];
      }
    }
  }

  /** Appending an entry that continues its wallet's balance. */
  lemma PostEntry(l: seq<LedgerEntry>, e: LedgerEntry, balance: int, seeds: map<WalletId, int>)
    requires Chained(l, seeds) && e.wallet in seeds && balance == seeds[e.wallet] + SumSigned(l, e.wallet)
    requires e.amount > 0 && e.signed == (if e.direction == Debit then -e.amount else e.amount)
    requires e.balanceAfter == balance + e.signed >= 0
    ensures Chained(l + [e], seeds)
  {
    SumAppends(l, e, e.wallet);
    assert (l + [e])[..|l| + 1] == l + [e];
    ChainAppends(l, e, seeds);
  }

  /** The ledger after the pair of a transfer: both wallets move, no other does. */
  lemma PairSums(l: seq<LedgerEntry>, d: LedgerEntry, c: LedgerEntry, w: WalletId)
    ensures SumSigned(l + [d, c], w)
            == SumSigned(l, w) + (if d.wallet == w then d.signed else 0) + (if c.wallet == w then c.signed else 0)
  {
    SumAppends(l, d, w);
    SumAppends(l + [d], c, w);
    assert l + [d] + [c] == l + [d, c];
  }

  lemma MoveKeepsAccounts(db: Db, input: SettleInput, from: WalletId, to: WalletId, env: Env,
                          seeds: map<WalletId, int>)
    requires from != to && from in db.wallets && to in db.wallets
    requires input.amount > 0 && db.wallets[from].balance >= input.amount
    requires Explained(db, seeds)
    ensures Explained(MoveMoney(db, input, from, to, env), seeds)
  {
    hide Chained;
    var db' := MoveMoney(db, input, from, to, env);
    var id := TransferId(env);
    var d := DebitEntry(id, from, db.wallets[from].balance, input.amount);
    var c := CreditEntry(id, to, db.wallets[to].balance, input.amount);
    PostEntry(db.ledger, d, db.wallets[from].balance, seeds);
    SumAppends(db.ledger, d, to);
    PostEntry(db.ledger + [d], c, db.wallets[to].balance, seeds);
    assert db.ledger + [d] + [c] == db'.ledger;
    forall w | w in db'.wallets
      ensures db'.wallets[w].balance >= 0 && db'.wallets[w].balance == seeds[w] + SumSigned(db'.ledger, w)
    {
      PairSums(db.ledger, d, c, w);
    }
  }

  lemma {:induction false} NoEntriesYet(l: seq<LedgerEntry>, id: WalletId)
    requires forall i :: 0 <= i < |l| ==> l[i].wallet != id
    ensures SumSigned(l, id) == 0
  {
    if l != [] { NoEntriesYet(l[..|l| - 1], id); }
  }

  lemma ChainIgnoresNewWallets(l: seq<LedgerEntry>, seeds: map<WalletId, int>, id: WalletId, seeds': map<WalletId, int>)
    requires Chained(l, seeds) && id !in seeds
    requires seeds.Keys <= seeds'.Keys && forall w :: w in seeds ==> seeds'[w] == seeds[w]
    ensures Chained(l, seeds') && SumSigned(l, id) == 0
  {
    forall i | 0 <= i < |l| ensures EntryBalanced(l, i, seeds') && l[i].wallet != id {
      assert EntryBalanced(l, i, seeds);
    }
    NoEntriesYet(l, id);
  }

  lemma RegisterKeepsAccounts(db: Db, user: UserId, id: WalletId, wallet: Wallet, seeds: map<WalletId, int>)
    requires CanRegister(db, user, id, wallet) && Explained(db, seeds)
    ensures Explained(Register(db, user, id, wallet), seeds[id := wallet.balance])
  {
    ChainIgnoresNewWallets(db.ledger, seeds, id, seeds[id := wallet.balance]);
  }

  lemma HandleKeepsAccounts(lim: Limits, db: Db, cmd: Command, env: Env, seeds: map<WalletId, int>)
    requires WalletsIndexed(db) && Explained(db, seeds)
    ensures Explained(Handle(lim, db, cmd, env).0, seeds)
  {
    hide Handle, Effective, Balanced, Chained, Cleared, CheckRow;
    HandleShape(lim, db, cmd, env);
    if Effective(lim, db, cmd, env) && cmd.Settles() {
      ClearedFacts(lim, db, MovedBy(db, cmd), From(db, cmd), To(db, cmd), env);
      MoveKeepsAccounts(db, MovedBy(db, cmd), From(db, cmd), To(db, cmd), env, seeds);
    }
  }

  /** In every state of every history the ledger explains every balance, entry by entry. */
  lemma {:induction false} LedgerAgreesWithBalances(lim: Limits, h: seq<Entry>)
    requires Consistent(lim, h)
    ensures Explained(Replay(lim, h), Seeds(h))
  {
    hide Handle, CanRegister, WalletsIndexed, Register;
    if h != [] {
      var before, e := h[..|h| - 1], h[|h| - 1];
      var db := Replay(lim, before);
      LedgerAgreesWithBalances(lim, before);
      TablesAreSane(lim, before);
      match e
      case Answered(_, cmd, env, _) => HandleKeepsAccounts(lim, db, cmd, env, Seeds(before));
      case Registered(user, id, wallet) => RegisterKeepsAccounts(db, user, id, wallet, Seeds(before));
    }
  }

  // ---------- conservation ----------

  function Balances(wallets: map<WalletId, Wallet>): map<nat, int> {
    map w | w in wallets :: wallets[w].balance
  }

  lemma MoveConserves(db: Db, input: SettleInput, from: WalletId, to: WalletId, env: Env)
    requires from != to && from in db.wallets && to in db.wallets
    ensures Total(Balances(MoveMoney(db, input, from, to, env).wallets)) == Total(Balances(db.wallets))
  {
    var b := Balances(db.wallets);
    var debited := b[from := b[from] - input.amount];
    TotalUpdates(b, from, b[from] - input.amount);
    TotalUpdates(debited, to, b[to] + input.amount);
    assert Balances(MoveMoney(db, input, from, to, env).wallets) == debited[to := b[to] + input.amount];
  }

  /** No call creates or destroys money. */
  lemma HandleConserves(lim: Limits, db: Db, cmd: Command, env: Env)
    requires WalletsIndexed(db)
    ensures Total(Balances(Handle(lim, db, cmd, env).0.wallets)) == Total(Balances(db.wallets))
  {
    hide Handle, Effective, Cleared, CheckRow, Total, Balances;
    HandleShape(lim, db, cmd, env);
    if Effective(lim, db, cmd, env) && cmd.Settles() {
      ClearedFacts(lim, db, MovedBy(db, cmd), From(db, cmd), To(db, cmd), env);
      MoveConserves(db, MovedBy(db, cmd), From(db, cmd), To(db, cmd), env);
    }
  }

  /** The total of all balances is the total of all registration seeds. */
  lemma {:induction false} MoneyIsConserved(lim: Limits, h: seq<Entry>)
    requires Consistent(lim, h)
    ensures Total(Balances(Replay(lim, h).wallets)) == Total(Seeds(h))
  {
    hide Handle, WalletsIndexed;
    if h == [] {
      assert Balances(EMPTY.wallets) == map[];
    } else {
      var before, e := h[..|h| - 1], h[|h| - 1];
      var db := Replay(lim, before);
      MoneyIsConserved(lim, before);
      TablesAreSane(lim, before);
      match e
      case Answered(_, cmd, env, _) => HandleConserves(lim, db, cmd, env);
      case Registered(user, id, wallet) =>
        LedgerAgreesWithBalances(lim, before);
        TotalUpdates(Balances(db.wallets), id, wallet.balance);
        TotalUpdates(Seeds(before), id, wallet.balance);
        assert Balances(Register(db, user, id, wallet).wallets) == Balances(db.wallets)[id := wallet.balance];
    }
  }

  /** No balance ever exceeds what all wallets together were seeded with: if that fits the column,
      no balance overflows it. */
  lemma NoBalanceExceedsTheSeeds(lim: Limits, h: seq<Entry>, w: WalletId)
    requires Consistent(lim, h) && w in Replay(lim, h).wallets
    ensures 0 <= Replay(lim, h).wallets[w].balance <= Total(Seeds(h))
  {
    hide Consistent, Replay, Seeds;
    LedgerAgreesWithBalances(lim, h);
    MoneyIsConserved(lim, h);
    NoPartExceedsTheTotal(Balances(Replay(lim, h).wallets), w);
  }
}
