/** Balances of the Profiles table: the row update the payment issues
    (`UPDATE ... SET balance = balance + delta WHERE id = ?`) and the sum of
    all balances, which a payment must preserve. */
module Ledger {
  import opened Entities

  /** Some key of a non-empty profile table. */
  ghost function AnyKey(m: map<ProfileId, Profile>): (k: ProfileId)
    requires m != map[]
    ensures k in m
  {
    assert exists k :: k in m.Keys by {
      if forall k :: k !in m.Keys {
        assert false;
      }
    }
    var k :| k in m.Keys; k
  }

  /** The money held by all profiles together. */
  ghost function TotalBalance(m: map<ProfileId, Profile>): int
    decreases |m|
  {
    if m == map[] then 0
    else
      var k := AnyKey(m);
      assert (m - {k}).Keys == m.Keys - {k};
      m[k].balance + TotalBalance(m - {k})
  }

  /** The total may be split off at any key, not only at the one
      TotalBalance happens to pick. */
  lemma {:induction false} TotalBalanceSplit(m: map<ProfileId, Profile>, k: ProfileId)
    requires k in m
    ensures TotalBalance(m) == m[k].balance + TotalBalance(m - {k})
    decreases |m|
  {
    var j := AnyKey(m);
    if j != k {
      assert (m - {j}).Keys == m.Keys - {j};
      assert (m - {k}).Keys == m.Keys - {k};
      TotalBalanceSplit(m - {j}, k);
      TotalBalanceSplit(m - {k}, j);
      assert m - {j} - {k} == m - {k} - {j};
    }
  }

  /** Replacing one row changes the total by the difference of the balances. */
  lemma {:induction false} TotalBalanceUpdate(m: map<ProfileId, Profile>, k: ProfileId, p: Profile)
    requires k in m
    ensures TotalBalance(m[k := p]) == TotalBalance(m) - m[k].balance + p.balance
  {
    TotalBalanceSplit(m, k);
    TotalBalanceSplit(m[k := p], k);
    assert m[k := p] - {k} == m - {k};
  }

  /** Adds `delta` to the balance of the row with id `target`; a row that
      does not exist is silently not updated, as an UPDATE matching no row. */
  function Adjust(m: map<ProfileId, Profile>, target: ProfileId, delta: Money): (r: map<ProfileId, Profile>)
    ensures r.Keys == m.Keys
    ensures forall id :: id in m && id != target ==> r[id] == m[id]
    ensures target in m ==> r[target].balance == m[target].balance + delta
    ensures forall id :: id in m ==> r[id].kind == m[id].kind
  {
    if target in m then m[target := m[target].(balance := m[target].balance + delta)] else m
  }

  /** An adjustment changes the total by `delta` when the row exists and
      leaves it alone otherwise. */
  lemma AdjustTotal(m: map<ProfileId, Profile>, target: ProfileId, delta: Money)
    ensures TotalBalance(Adjust(m, target, delta)) == TotalBalance(m) + (if target in m then delta else 0)
  {
    if target in m {
      TotalBalanceUpdate(m, target, m[target].(balance := m[target].balance + delta));
    }
  }

  /** The two updates of a payment: debit the payer, then credit the payee. */
  function Transfer(m: map<ProfileId, Profile>, from: ProfileId, to: ProfileId, amount: Money): (r: map<ProfileId, Profile>)
    requires from in m
    ensures r.Keys == m.Keys
    ensures forall id :: id in m && id != from && id != to ==> r[id] == m[id]
    ensures from != to ==> r[from].balance == m[from].balance - amount
    ensures from != to && to in m ==> r[to].balance == m[to].balance + amount
    ensures from == to ==> r == m
    ensures forall id :: id in m ==> r[id].kind == m[id].kind
  {
    Adjust(Adjust(m, from, -amount), to, amount)
  }

  /** Debiting one row and then crediting another changes the total only
      by what the credit fails to add when its row is missing. */
  lemma DebitCreditTotal(m: map<ProfileId, Profile>, from: ProfileId, to: ProfileId, amount: Money)
    requires from in m
    ensures TotalBalance(Adjust(Adjust(m, from, -amount), to, amount))
            == TotalBalance(m) - (if to in m then 0 else amount)
  {
    AdjustTotal(m, from, -amount);
    AdjustTotal(Adjust(m, from, -amount), to, amount);
  }

  /** A transfer between two existing profiles moves money without creating
      or destroying any; when the payee row is missing the amount is lost. */
  lemma TransferTotal(m: map<ProfileId, Profile>, from: ProfileId, to: ProfileId, amount: Money)
    requires from in m
    ensures TotalBalance(Transfer(m, from, to, amount)) == TotalBalance(m) - (if to in m then 0 else amount)
  {
    DebitCreditTotal(m, from, to, amount);
  }
}
