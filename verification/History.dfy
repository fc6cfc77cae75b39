/** The bounded per-account index of ingested transactions (crates/api/src/state.rs:31-80). */
module History {
  import opened Common

  const MAX_HISTORY_PER_ACCOUNT: nat := 500

  type Index = map<Account, seq<Transaction>>

  function Lookup(index: Index, account: Account): seq<Transaction> {
    if account in index then index[account] else []
  }

  function LastOf<T>(s: seq<T>, n: nat): seq<T> {
    if |s| > n then s[|s| - n..] else s
  }

  function Pushed(index: Index, account: Account, tx: Transaction): Index {
    index[account := LastOf(Lookup(index, account) + [tx], MAX_HISTORY_PER_ACCOUNT)]
  }

  function Recorded(index: Index, tx: Transaction): Index {
    var bySource := Pushed(index, tx.source, tx);
    if tx.destination.Some? && tx.destination.value != tx.source
    then Pushed(bySource, tx.destination.value, tx)
    else bySource
  }

  /** The unbounded history of an account: every ingested transaction it is a party of, in order. */
  function Touching(ingested: seq<Transaction>, account: Account): seq<Transaction> {
    Filter((t: Transaction) => account in Parties(t), ingested)
  }

  function LatestWithHash(ingested: seq<Transaction>, hash: string): Option<Transaction> {
    if ingested == [] then None
    else if ingested[|ingested| - 1].txHash == hash then Some(ingested[|ingested| - 1])
    else LatestWithHash(ingested[..|ingested| - 1], hash)
  }

  /** The index holds the last 500 transactions of every account. */
  ghost predicate Indexes(index: Index, ingested: seq<Transaction>) {
    forall account :: Lookup(index, account) == LastOf(Touching(ingested, account), MAX_HISTORY_PER_ACCOUNT)
  }

  /** The hash map holds the latest transaction with each hash. */
  ghost predicate Stores(transactions: map<string, Transaction>, ingested: seq<Transaction>) {
    forall hash :: (if hash in transactions then Some(transactions[hash]) else None) == LatestWithHash(ingested, hash)
  }

  lemma LastOfLastOf<T>(s: seq<T>, x: T, n: nat)
    ensures LastOf(LastOf(s, n) + [x], n) == LastOf(s + [x], n)
  {
    if |s| > n {
      assert s[|s| - n..] + [x] == (s + [x])[|s| - n..];
    }
  }

  lemma RecordingKeepsIndex(index: Index, ingested: seq<Transaction>, tx: Transaction)
    requires Indexes(index, ingested)
    ensures Indexes(Recorded(index, tx), ingested + [tx])
  {
    forall account
      ensures Lookup(Recorded(index, tx), account) == LastOf(Touching(ingested + [tx], account), MAX_HISTORY_PER_ACCOUNT)
    {
      TouchingSnoc(ingested, tx, account);
      LastOfLastOf(Touching(ingested, account), tx, MAX_HISTORY_PER_ACCOUNT);
    }
  }

  lemma TouchingSnoc(ingested: seq<Transaction>, tx: Transaction, account: Account)
    ensures Touching(ingested + [tx], account)
         == if account in Parties(tx) then Touching(ingested, account) + [tx] else Touching(ingested, account)
  {
    FilterSnoc((t: Transaction) => account in Parties(t), ingested, tx);
  }

  lemma RecordingKeepsStore(transactions: map<string, Transaction>, ingested: seq<Transaction>, tx: Transaction)
    requires Stores(transactions, ingested)
    ensures Stores(transactions[tx.txHash := tx], ingested + [tx])
  {
    assert (ingested + [tx])[..|ingested|] == ingested;
  }
}
