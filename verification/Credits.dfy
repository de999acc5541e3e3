/** Credits owed to an account: a balance per account and the ledger that explains it, changed
    together in one transaction. */
module Credits {
  import opened Text

  datatype Entry = Entry(account: string, cents: int, debit: bool, reason: string)

  datatype Books = Books(accounts: set<string>, balances: map<string, int>, entries: seq<Entry>)

  /** How the database behaves during one call; a commit whose answer is lost may have landed. */
  datatype Weather = Fair | NoRead | NoWrite | Lost(landed: bool)

  /** `Error` covers both a refusal and a fault. */
  datatype Reply = Applied(cents: int) | Error

  function Balance(b: Books, account: string): int {
    if account in b.balances then b.balances[account] else 0
  }

  function Delta(e: Entry): int {
    if e.debit then -e.cents else e.cents
  }

  /** Credits minus debits of one account. */
  function Net(entries: seq<Entry>, account: string): int {
    if entries == [] then 0
    else
      var e := entries[|entries| - 1];
      Net(entries[..|entries| - 1], account) + if e.account == account then Delta(e) else 0
  }

  /** The balance row and the ledger entry of one movement. */
  function Moved(b: Books, e: Entry): Books {
    b.(balances := b.balances[e.account := Balance(b, e.account) + Delta(e)], entries := b.entries + [e])
  }

  /** `applyMovement` as a transaction: both rows, or neither. */
  function Movement(b: Books, e: Entry, weather: Weather): (Books, Reply) {
    match weather
    case Fair => (Moved(b, e), Applied(e.cents))
    case Lost(true) => (Moved(b, e), Error)
    case _ => (b, Error)
  }

  function Add(b: Books, account: string, cents: int, reason: string, weather: Weather): (Books, Reply) {
    if cents <= 0 || Trim(reason, Space()) == "" || weather.NoRead? || account !in b.accounts then (b, Error)
    else Movement(b, Entry(account, cents, false, reason), weather)
  }

  function Deduct(b: Books, account: string, cents: int, reason: string, weather: Weather): (Books, Reply) {
    if cents <= 0 || reason == "" || weather.NoRead? || account !in b.balances || b.balances[account] < cents
    then (b, Error)
    else Movement(b, Entry(account, cents, true, reason), weather)
  }

  function Invoice(b: Books, account: string, cents: int, weather: Weather): (Books, Reply) {
    if account == "" || cents <= 0 then (b, Applied(0))
    else if weather.NoRead? then (b, Error)
    else
      var applied := if Balance(b, account) > cents then cents else Balance(b, account);
      if applied <= 0 then (b, Applied(0))
      else Deduct(b, account, applied, "invoice_credit", weather)
  }

  datatype Call =
    | AddCall(account: string, cents: int, reason: string)
    | DeductCall(account: string, cents: int, reason: string)
    | InvoiceCall(account: string, cents: int)

  function Answer(b: Books, call: Call, weather: Weather): (Books, Reply) {
    match call
    case AddCall(account, cents, reason) => Add(b, account, cents, reason, weather)
    case DeductCall(account, cents, reason) => Deduct(b, account, cents, reason, weather)
    case InvoiceCall(account, cents) => Invoice(b, account, cents, weather)
  }

  function Run(b: Books, calls: seq<(Call, Weather)>): Books {
    if calls == [] then b
    else Answer(Run(b, calls[..|calls| - 1]), calls[|calls| - 1].0, calls[|calls| - 1].1).0
  }

  /** Every balance is what the ledger adds up to. */
  ghost predicate Explained(b: Books) {
    forall account :: Balance(b, account) == Net(b.entries, account)
  }

  ghost predicate NoDebt(b: Books) {
    forall account :: 0 <= Balance(b, account)
  }

  lemma MovedBalance(b: Books, e: Entry)
    ensures forall account ::
              Balance(Moved(b, e), account) == Balance(b, account) + if account == e.account then Delta(e) else 0
  {
  }

  lemma MovedNet(b: Books, e: Entry)
    requires Explained(b)
    ensures Explained(Moved(b, e))
    ensures Balance(Moved(b, e), e.account) == Balance(b, e.account) + Delta(e)
    ensures forall other :: other != e.account ==> Balance(Moved(b, e), other) == Balance(b, other)
  {
    assert Moved(b, e).entries[..|b.entries|] == b.entries;
  }

  /** One call keeps the books straight, whatever its arguments and whatever goes wrong. A call
      that reports an error has changed nothing unless its commit landed unseen. */
  lemma CallKeeps(b: Books, call: Call, weather: Weather)
    requires Explained(b) && NoDebt(b)
    ensures var (after, reply) := Answer(b, call, weather);
            && Explained(after) && NoDebt(after)
            && (reply == Error && weather != Lost(true) ==> after == b)
            && (forall other :: other != call.account ==> Balance(after, other) == Balance(b, other))
  {
    var (after, reply) := Answer(b, call, weather);
    hide Net, Trim;
    if after != b {
      MovedNet(b, after.entries[|b.entries|]);
    }
  }

  lemma {:induction false} BlankStart(s: string)
    ensures TrimStart(s, Space()) == "" <==> forall c :: c in s ==> IsSpace(c)
  {
    if s != "" {
      assert s == [s[0]] + s[1..] && s[0] in s;
      BlankStart(s[1..]);
      hide IsSpace;
    }
  }

  /** Only white space is trimmed to nothing. */
  lemma BlankIff(s: string)
    ensures Trim(s, Space()) == "" <==> forall c :: c in s ==> IsSpace(c)
  {
    BlankStart(s);
    TrimStartSuffix(s, Space());
    TrimEndPrefix(TrimStart(s, Space()), Space());
    var t := TrimStart(s, Space());
    if t != "" && TrimEnd(t, Space()) == "" {
      EndLeavesStart(t);
    }
    hide IsSpace;
  }

  lemma {:induction false} EndLeavesStart(t: string)
    requires t != "" && !IsSpace(t[0])
    ensures TrimEnd(t, Space()) != ""
  {
    if |t| > 1 && IsSpace(t[|t| - 1]) {
      EndLeavesStart(t[..|t| - 1]);
    }
    hide IsSpace;
  }

  /** The books once an account's balance and ledger have gone up by an amount, which may be negative. */
  ghost predicate Shifted(b: Books, after: Books, account: string, cents: int) {
    && after.accounts == b.accounts
    && (forall x :: Balance(after, x) == Balance(b, x) + if x == account then cents else 0)
    && |after.entries| == |b.entries| + 1 && b.entries <= after.entries
    && after.entries[|b.entries|].account == account
    && after.entries[|b.entries|].cents == (if cents < 0 then -cents else cents)
    && (after.entries[|b.entries|].debit <==> cents < 0)
  }

  /** What a call that is not refused comes to: done, not done, or done unseen. */
  ghost predicate Outcome(b: Books, after: Books, reply: Reply, account: string, cents: int, weather: Weather) {
    match weather
    case Fair => Shifted(b, after, account, cents) && reply == Applied(if cents < 0 then -cents else cents)
    case Lost(landed) => reply == Error && if landed then Shifted(b, after, account, cents) else after == b
    case NoRead => reply == Error && after == b
    case NoWrite => reply == Error && after == b
  }

  lemma MovedShifts(b: Books, e: Entry)
    requires 0 < e.cents
    ensures Shifted(b, Moved(b, e), e.account, if e.debit then -e.cents else e.cents)
  {
    MovedBalance(b, e);
  }

  /** A credit raises the balance by its amount, unless the amount is not positive, the reason is blank or the
      account is not known. */
  lemma CreditRaises(b: Books, account: string, cents: int, reason: string, weather: Weather)
    ensures var (after, reply) := Add(b, account, cents, reason, weather);
            if 0 < cents && (exists c :: c in reason && !IsSpace(c)) && account in b.accounts
            then Outcome(b, after, reply, account, cents, weather)
            else reply == Error && after == b
  {
    BlankIff(reason);
    hide Trim, IsSpace, Moved, Shifted;
    if 0 < cents {
      MovedShifts(b, Entry(account, cents, false, reason));
    }
  }

  /** A debit lowers the balance by its amount, unless the amount is not positive, the reason is empty or the
      balance does not cover it. */
  lemma DebitLowers(b: Books, account: string, cents: int, reason: string, weather: Weather)
    ensures var (after, reply) := Deduct(b, account, cents, reason, weather);
            if 0 < cents && reason != "" && cents <= Balance(b, account)
            then Outcome(b, after, reply, account, -cents, weather)
            else reply == Error && after == b
  {
    hide Moved, Shifted;
    if 0 < cents {
      MovedShifts(b, Entry(account, cents, true, reason));
    }
  }

  /** Over every history of calls, from an empty book: the ledger explains every balance and no
      account is in debt. */
  lemma {:induction false} AlwaysExplained(accounts: set<string>, calls: seq<(Call, Weather)>)
    ensures var b := Run(Books(accounts, map[], []), calls); Explained(b) && NoDebt(b)
  {
    if calls != [] {
      var (call, weather) := calls[|calls| - 1];
      AlwaysExplained(accounts, calls[..|calls| - 1]);
      CallKeeps(Run(Books(accounts, map[], []), calls[..|calls| - 1]), call, weather);
    }
  }

  /** An invoice takes the smaller of balance and bill, and takes it once: what it reports is what
      the balance and the ledger lose. */
  lemma InvoiceSpends(b: Books, account: string, cents: int, weather: Weather)
    requires Explained(b) && NoDebt(b)
    ensures var (after, reply) := Invoice(b, account, cents, weather);
            var due := if cents < 0 || account == "" then 0 else cents;
            var spent := if Balance(b, account) < due then Balance(b, account) else due;
            && (weather.Fair? ==> reply == Applied(spent))
            && (reply.Applied? ==> reply.cents == spent)
            && (reply.Applied? ==> Balance(after, account) == Balance(b, account) - spent)
            && (reply.Applied? ==> Net(after.entries, account) == Net(b.entries, account) - spent)
            && (spent == 0 ==> after == b)
            && (due == 0 ==> reply == Applied(0))
            && (0 < due && weather.NoRead? ==> reply == Error && after == b)
  {
    CallKeeps(b, InvoiceCall(account, cents), weather);
    hide Net;
  }

  /** One step of several callers at work: a debit's check and its movement are two steps, since
      the balance is read before the transaction begins. */
  datatype Step =
    | Grant(account: string, cents: nat)
    | Check(account: string, cents: nat)
    | Settle(k: nat, landed: bool)

  datatype Desk = Desk(books: Books, waiting: seq<Entry>)

  function Next(d: Desk, step: Step): Desk {
    match step
    case Grant(account, cents) => d.(books := Moved(d.books, Entry(account, cents, false, "credit")))
    case Check(account, cents) =>
      if Balance(d.books, account) < cents then d
      else d.(waiting := d.waiting + [Entry(account, cents, true, "invoice_credit")])
    case Settle(k, landed) =>
      if |d.waiting| <= k then d
      else Desk(if landed then Moved(d.books, d.waiting[k]) else d.books, d.waiting[..k] + d.waiting[k + 1..])
  }

  function Work(d: Desk, steps: seq<Step>): Desk {
    if steps == [] then d else Next(Work(d, steps[..|steps| - 1]), steps[|steps| - 1])
  }

  /** With nobody in between, the steps come to the calls: a grant is a credit, and a check that is settled at once
      is a debit. */
  lemma StepsAreCalls(b: Books, account: string, cents: nat)
    requires 0 < cents
    ensures account in b.accounts ==>
              Next(Desk(b, []), Grant(account, cents)) == Desk(Add(b, account, cents, "credit", Fair).0, [])
    ensures Next(Next(Desk(b, []), Check(account, cents)), Settle(0, true))
         == Desk(Deduct(b, account, cents, "invoice_credit", Fair).0, [])
    ensures Next(Next(Desk(b, []), Check(account, cents)), Settle(0, false)) == Desk(b, [])
  {
    var d := Next(Desk(b, []), Check(account, cents));
    assert d.waiting != [] ==> d.waiting[..0] + d.waiting[1..] == [];
    BlankIff("credit");
    assert 'c' in "credit" && !IsSpace('c');
    hide Trim, IsSpace;
  }

  predicate Alone(d: Desk) {
    forall i, j :: 0 <= i < j < |d.waiting| ==> d.waiting[i].account != d.waiting[j].account
  }

  /** Every debit on its way is still covered. */
  ghost predicate Covered(d: Desk) {
    && NoDebt(d.books)
    && forall e :: e in d.waiting ==> e.debit && 0 <= e.cents <= Balance(d.books, e.account)
  }

  /** The ledger explains the balances in every interleaving of any number of callers. */
  lemma {:induction false} ExplainedTogether(d: Desk, steps: seq<Step>)
    requires Explained(d.books)
    ensures Explained(Work(d, steps).books)
  {
    if steps != [] {
      var before, step := Work(d, steps[..|steps| - 1]), steps[|steps| - 1];
      ExplainedTogether(d, steps[..|steps| - 1]);
      hide Net;
      match step
      case Grant(account, cents) => MovedNet(before.books, Entry(account, cents, false, "credit"));
      case Check(account, cents) =>
      case Settle(k, landed) =>
        if k < |before.waiting| {
          MovedNet(before.books, before.waiting[k]);
        }
    }
  }

  /** With one debit at a time on its way for an account, no interleaving takes it into debt. */
  lemma {:induction false} CoveredAlone(d: Desk, steps: seq<Step>)
    requires Covered(d)
    requires forall n :: 0 <= n <= |steps| ==> Alone(Work(d, steps[..n]))
    ensures Covered(Work(d, steps))
  {
    if steps != [] {
      var n := |steps| - 1;
      forall m | 0 <= m <= n
        ensures Alone(Work(d, steps[..n][..m]))
      {
        assert steps[..n][..m] == steps[..m];
      }
      CoveredAlone(d, steps[..n]);
      assert steps[..n + 1] == steps;
      CoveredStep(Work(d, steps[..n]), steps[n]);
    }
  }

  lemma CoveredStep(d: Desk, step: Step)
    requires Covered(d) && Alone(d)
    ensures Covered(Next(d, step))
  {
    var after := Next(d, step);
    if step.Grant? {
      MovedBalance(d.books, Entry(step.account, step.cents, false, "credit"));
    } else if step.Settle? && step.k < |d.waiting| {
      MovedBalance(d.books, d.waiting[step.k]);
      assert d.waiting[step.k] in d.waiting;
      forall e | e in after.waiting
        ensures e in d.waiting && e.account != d.waiting[step.k].account
      {
        var i :| 0 <= i < |after.waiting| && after.waiting[i] == e;
        assert e == d.waiting[if i < step.k then i else i + 1];
      }
    }
  }

  /** What the debits on their way take from an account. */
  function Due(waiting: seq<Entry>, account: string): int {
    if waiting == [] then 0
    else Due(waiting[1..], account) + if waiting[0].account == account then waiting[0].cents else 0
  }

  /** Only debits are waiting, of no negative amount. */
  predicate AllDebits(d: Desk) {
    forall e :: e in d.waiting ==> e.debit && 0 <= e.cents
  }

  predicate Settling(steps: seq<Step>) {
    forall step :: step in steps ==> step.Settle?
  }

  ghost predicate LeadsToDebt(d: Desk, steps: seq<Step>) {
    Settling(steps) && !NoDebt(Work(d, steps).books)
  }

  /** The debits on their way can lead to debt exactly when, for some account, they come to more
      than its balance. */
  lemma DebtIff(d: Desk)
    requires NoDebt(d.books) && AllDebits(d)
    ensures (exists steps :: LeadsToDebt(d, steps))
            <==> exists account :: Balance(d.books, account) < Due(d.waiting, account)
  {
    if account :| Balance(d.books, account) < Due(d.waiting, account) {
      var steps := SettleFirst(|d.waiting|);
      OnlySettles(|d.waiting|);
      SettleAll(d, account);
      assert LeadsToDebt(d, steps);
    } else {
      forall steps
        ensures !LeadsToDebt(d, steps)
      {
        if Settling(steps) {
          StaysCovered(d, steps);
        }
      }
    }
  }

  lemma WorkFront(d: Desk, first: Step, rest: seq<Step>)
    ensures Work(d, [first] + rest) == Work(Next(d, first), rest)
    decreases |rest|
  {
    hide Next;
    var steps := [first] + rest;
    if rest == [] {
      assert steps == [first] && [first][..0] == [];
    } else {
      assert steps[..|steps| - 1] == [first] + rest[..|rest| - 1];
      WorkFront(d, first, rest[..|rest| - 1]);
    }
  }

  /** Settle the debit that waits longest, again and again. */
  function SettleFirst(n: nat): seq<Step> {
    if n == 0 then [] else [Settle(0, true)] + SettleFirst(n - 1)
  }

  lemma {:induction false} OnlySettles(n: nat)
    ensures Settling(SettleFirst(n))
  {
    if n != 0 {
      OnlySettles(n - 1);
    }
  }

  /** Once all have been settled, the account has lost what was due. */
  lemma {:induction false} SettleAll(d: Desk, account: string)
    requires AllDebits(d)
    ensures var end := Work(d, SettleFirst(|d.waiting|));
            Balance(end.books, account) == Balance(d.books, account) - Due(d.waiting, account)
    decreases |d.waiting|
  {
    if d.waiting == [] {
      NoneSettled(d, account);
    } else {
      var first, n := Settle(0, true), |d.waiting|;
      FirstSettled(d, account);
      hide Next, Balance, Due, Work, AllDebits;
      SettleAll(Next(d, first), account);
      WorkFront(d, first, SettleFirst(n - 1));
    }
  }

  lemma NoneSettled(d: Desk, account: string)
    ensures Work(d, SettleFirst(0)) == d && Due([], account) == 0
  {
  }

  lemma FirstSettled(d: Desk, account: string)
    requires AllDebits(d) && d.waiting != []
    ensures var d1 := Next(d, Settle(0, true));
            && AllDebits(d1) && |d1.waiting| == |d.waiting| - 1
            && Balance(d1.books, account) - Due(d1.waiting, account)
                == Balance(d.books, account) - Due(d.waiting, account)
  {
    var d1 := Next(d, Settle(0, true));
    assert d1.waiting == d.waiting[1..] && d.waiting[0] in d.waiting;
    assert forall e :: e in d1.waiting ==> e in d.waiting;
    MovedBalance(d.books, d.waiting[0]);
    hide Moved, Balance;
  }

  lemma {:induction false} DueWithout(waiting: seq<Entry>, k: nat, account: string)
    requires k < |waiting|
    ensures Due(waiting, account)
         == Due(waiting[..k] + waiting[k + 1..], account) + if waiting[k].account == account then waiting[k].cents
             else 0
  {
    var rest := waiting[..k] + waiting[k + 1..];
    if k == 0 {
      assert rest == waiting[1..];
    } else {
      assert rest[0] == waiting[0] && rest[1..] == waiting[1..][..k - 1] + waiting[1..][k..];
      DueWithout(waiting[1..], k - 1, account);
    }
  }

  lemma {:induction false} DueNotNegative(waiting: seq<Entry>, account: string)
    requires forall e :: e in waiting ==> 0 <= e.cents
    ensures 0 <= Due(waiting, account)
  {
    if waiting != [] {
      DueNotNegative(waiting[1..], account);
      assert waiting[0] in waiting;
    }
  }

  ghost predicate DueCovered(d: Desk) {
    AllDebits(d) && forall account :: Due(d.waiting, account) <= Balance(d.books, account)
  }

  lemma SettleCovered(d: Desk, k: nat, landed: bool)
    requires DueCovered(d)
    ensures DueCovered(Next(d, Settle(k, landed)))
  {
    if k < |d.waiting| {
      var e, d1 := d.waiting[k], Next(d, Settle(k, landed));
      assert e in d.waiting;
      MovedBalance(d.books, e);
      hide Moved, Balance, Due;
      forall account
        ensures Due(d1.waiting, account) <= Balance(d1.books, account)
      {
        DueWithout(d.waiting, k, account);
        assert Due(d.waiting, account) <= Balance(d.books, account);
      }
    }
  }

  lemma {:induction false} StaysCovered(d: Desk, steps: seq<Step>)
    requires DueCovered(d) && Settling(steps)
    ensures DueCovered(Work(d, steps)) && NoDebt(Work(d, steps).books)
  {
    var end := Work(d, steps);
    if steps != [] {
      var n := |steps| - 1;
      assert steps[n] in steps;
      StaysCovered(d, steps[..n]);
      SettleCovered(Work(d, steps[..n]), steps[n].k, steps[n].landed);
    }
    forall account
      ensures 0 <= Balance(end.books, account)
    {
      DueNotNegative(end.waiting, account);
      assert Due(end.waiting, account) <= Balance(end.books, account);
    }
  }

  /** Two debits that both saw the balance can lead to debt exactly when they exceed it together. */
  lemma TwoTogether(b: Books, account: string, first: nat, second: nat)
    requires NoDebt(b) && first <= Balance(b, account) && second <= Balance(b, account)
    ensures var d := Work(Desk(b, []), [Check(account, first), Check(account, second)]);
            (exists steps :: LeadsToDebt(d, steps)) <==> Balance(b, account) < first + second
  {
    var x, y := Entry(account, first, true, "invoice_credit"), Entry(account, second, true, "invoice_credit");
    var steps := [Check(account, first), Check(account, second)];
    assert steps[..1][..0] == [];
    assert Work(Desk(b, []), steps[..1]) == Desk(b, [x]);
    assert Work(Desk(b, []), steps) == Desk(b, [x, y]);
    DebtIff(Desk(b, [x, y]));
    forall other
      ensures Due([x, y], other) == if other == account then first + second else 0
    {
      DueOfTwo(x, y, other);
    }
    hide Work, Due, Balance, LeadsToDebt;
    assert NoDebt(b) ==> 0 <= Balance(b, account);
  }

  lemma DueOfTwo(x: Entry, y: Entry, account: string)
    ensures Due([x, y], account)
         == (if x.account == account then x.cents else 0) + (if y.account == account then y.cents else 0)
  {
    assert [x, y][1..] == [y] && [y][1..] == [];
    assert Due([y], account) == if y.account == account then y.cents else 0;
  }

  /** The two tables of the Connect database. */
  class CreditBook {
    var accounts: set<string>
    var balances: map<string, int>
    var entries: seq<Entry>

    constructor (known: set<string>)
      ensures View() == Books(known, map[], [])
    {
      accounts, balances, entries := known, map[], [];
    }

    ghost function View(): Books
      reads this
    {
      Books(accounts, balances, entries)
    }

    method ApplyMovement(account: string, cents: int, debit: bool, reason: string, weather: Weather)
      returns (reply: Reply)
      modifies this`balances, this`entries
      ensures (View(), reply) == Movement(old(View()), Entry(account, cents, debit, reason), weather)
    {
      if weather.NoRead? || weather.NoWrite? {
        return Error;
      }
      var delta := if debit then -cents else cents;
      var row := (if account in balances then balances[account] else 0) + delta;
      if weather == Lost(false) {
        return Error;
      }
      balances := balances[account := row];
      entries := entries + [Entry(account, cents, debit, reason)];
      reply := if weather.Fair? then Applied(cents) else Error;
    }

    method AddCredit(account: string, cents: int, reason: string, weather: Weather) returns (reply: Reply)
      modifies this`balances, this`entries
      ensures (View(), reply) == Add(old(View()), account, cents, reason, weather)
    {
      if cents <= 0 {
        return Error;
      }
      if Trim(reason, Space()) == "" {
        return Error;
      }
      if weather.NoRead? || account !in accounts {
        return Error;
      }
      reply := ApplyMovement(account, cents, false, reason, weather);
    }

    method DeductCredit(account: string, cents: int, reason: string, weather: Weather) returns (reply: Reply)
      modifies this`balances, this`entries
      ensures (View(), reply) == Deduct(old(View()), account, cents, reason, weather)
    {
      if cents <= 0 || reason == "" {
        return Error;
      }
      if weather.NoRead? || account !in balances {
        return Error;
      }
      if balances[account] < cents {
        return Error;
      }
      reply := ApplyMovement(account, cents, true, reason, weather);
    }

    method ApplyCreditsToInvoice(account: string, cents: int, weather: Weather) returns (reply: Reply)
      modifies this`balances, this`entries
      ensures (View(), reply) == Invoice(old(View()), account, cents, weather)
    {
      if account == "" || cents <= 0 {
        return Applied(0);
      }
      if weather.NoRead? {
        return Error;
      }
      if account !in balances {
        return Applied(0);
      }
      var applied := balances[account];
      if applied > cents {
        applied := cents;
      }
      if applied <= 0 {
        return Applied(0);
      }
      reply := DeductCredit(account, applied, "invoice_credit", weather);
    }
  }
}
