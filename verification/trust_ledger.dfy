/** The trust ledger: every deposit to or withdrawal from a matter's trust
    account is one appended entry that records the running balance, and a
    matter's current balance is the balance of its most recently written
    entry. The ledger is the whole trust table in creation order; a matter's
    own history is its projection. */
module TrustLedger {
  import opened Wrappers
  import opened Api

  datatype Kind = Deposit | Withdrawal

  /** A transaction date that has already passed the ISO-8601 check; it is
      carried along and never affects a balance. */
  datatype Date = Date(text: string)

  /** One trust entry: the matter it belongs to, its type, the amount moved
      and the balance after it. */
  datatype Entry = Entry(
    matter: string,
    date: Date,
    kind: Kind,
    amount: real,
    balance: real,
    description: string,
    reference: Json,
    createdBy: string)

  /** The whole trust table, oldest entry first. */
  type Ledger = seq<Entry>

  /** The body of a deposit or withdrawal request. `transactionDate` is `None`
      when the field is absent or is not ISO-8601. */
  datatype TrustRequest = TrustRequest(
    amount: Option<real>,
    description: Option<string>,
    transactionDate: Option<Date>,
    referenceNumber: Option<Json>)

  /** A written entry together with the ledger that now holds it. */
  datatype Posted = Posted(ledger: Ledger, entry: Entry)

  /** Roles allowed to move trust money. */
  const TrustRoles: seq<string> := ["Admin", "Partner"]

  /** The smallest amount `isFloat({ min: 0.01 })` accepts. */
  const MinAmount: real := 0.01

  // ---------------------------------------------------------------------------
  // Reading balances

  /** A matter's entries, in the order they were written. */
  function Project(l: Ledger, m: string): (p: seq<Entry>)
    ensures |p| <= |l|
    ensures forall e :: e in p ==> e in l && e.matter == m
  {
    if |l| == 0 then []
    else Project(l[..|l| - 1], m) + (if l[|l| - 1].matter == m then [l[|l| - 1]] else [])
  }

  /** The balance of a matter's latest written entry, scanning from the newest
      entry back; 0 when the matter has no entry. Creation order decides, not
      the transaction date. */
  function CurrentBalance(l: Ledger, m: string): real {
    if |l| == 0 then 0.0
    else if l[|l| - 1].matter == m then l[|l| - 1].balance
    else CurrentBalance(l[..|l| - 1], m)
  }

  /** The balance a history leaves behind, starting from `prior`. */
  function Last(es: seq<Entry>, prior: real): real {
    if |es| == 0 then prior else es[|es| - 1].balance
  }

  /** The current balance is the balance of the last entry of the matter's own
      history, or 0 when it has none. */
  lemma {:induction false} CurrentBalanceIsLast(l: Ledger, m: string)
    ensures CurrentBalance(l, m) == Last(Project(l, m), 0.0)
  {
    if |l| > 0 && l[|l| - 1].matter != m {
      CurrentBalanceIsLast(l[..|l| - 1], m);
      assert Project(l, m) == Project(l[..|l| - 1], m) + [];
    }
  }

  /** Every entry of the ledger shows up in its own matter's history. */
  lemma {:induction false} InProject(l: Ledger, i: nat)
    requires i < |l|
    ensures l[i] in Project(l, l[i].matter)
  {
    var init := l[..|l| - 1];
    if i < |l| - 1 {
      assert init[i] == l[i];
      InProject(init, i);
    }
  }

  // ---------------------------------------------------------------------------
  // The ledger invariant

  /** One entry applied to the balance before it: at least the minimum
      amount, added for a deposit, and for a withdrawal no more than the
      balance and subtracted from it. */
  predicate Step(prior: real, e: Entry) {
    && e.amount >= MinAmount
    && match e.kind
       case Deposit => e.balance == prior + e.amount
       case Withdrawal => e.amount <= prior && e.balance == prior - e.amount
  }

  /** A history in which every entry is one `Step` from the balance before it,
      starting from `prior`. */
  predicate Chained(es: seq<Entry>, prior: real)
    decreases |es|
  {
    |es| == 0 || (Step(prior, es[0]) && Chained(es[1..], es[0].balance))
  }

  /** Every matter's history starts from 0 and chains. */
  ghost predicate Valid(l: Ledger) {
    forall m :: Chained(Project(l, m), 0.0)
  }

  /** A chained history from a non-negative start never holds a negative balance. */
  lemma {:induction false} ChainedNonNegative(es: seq<Entry>, prior: real)
    requires prior >= 0.0 && Chained(es, prior)
    ensures forall e :: e in es ==> e.balance >= 0.0
  {
    if |es| > 0 {
      ChainedNonNegative(es[1..], es[0].balance);
      forall e | e in es
        ensures e.balance >= 0.0
      {
        if e != es[0] {
          assert e in es[1..];
        }
      }
    }
  }

  /** Appending one step to a chained history keeps it chained. */
  lemma {:induction false} ChainedAppend(es: seq<Entry>, prior: real, e: Entry)
    requires Chained(es, prior) && Step(Last(es, prior), e)
    ensures Chained(es + [e], prior)
  {
    if |es| > 0 {
      assert (es + [e])[1..] == es[1..] + [e];
      assert Last(es[1..], es[0].balance) == Last(es, prior);
      ChainedAppend(es[1..], es[0].balance, e);
    } else {
      assert [e][1..] == [];
    }
  }

  /** In a valid ledger every recorded balance is non-negative. */
  lemma ValidNonNegative(l: Ledger)
    requires Valid(l)
    ensures forall i :: 0 <= i < |l| ==> l[i].balance >= 0.0
  {
    forall i | 0 <= i < |l|
      ensures l[i].balance >= 0.0
    {
      InProject(l, i);
      ChainedNonNegative(Project(l, l[i].matter), 0.0);
    }
  }

  /** Appending an entry that is one step from its matter's current balance
      keeps the ledger valid. */
  lemma AppendPreservesValid(l: Ledger, e: Entry)
    requires Valid(l) && Step(CurrentBalance(l, e.matter), e)
    ensures Valid(l + [e])
  {
    var l' := l + [e];
    assert l'[..|l'| - 1] == l;
    forall m
      ensures Chained(Project(l', m), 0.0)
    {
      assert Chained(Project(l, m), 0.0);
      if e.matter == m {
        assert Project(l', m) == Project(l, m) + [e];
        CurrentBalanceIsLast(l, m);
        ChainedAppend(Project(l, m), 0.0, e);
      } else {
        assert Project(l', m) == Project(l, m) + [];
        assert Project(l', m) == Project(l, m);
      }
    }
  }

  // ---------------------------------------------------------------------------
  // The two handlers

  /** The validation chain of both trust routes, in declaration order. */
  function TrustChecks(req: TrustRequest): seq<(string, bool)> {
    [ ("amount", req.amount.Some? && req.amount.value >= MinAmount),
      ("description", req.description.Some? && NotEmpty(req.description.value)),
      ("transactionDate", req.transactionDate.Some?) ]
  }

  /** The request passes validation. */
  predicate Accepted(req: TrustRequest) {
    && req.amount.Some? && req.amount.value >= MinAmount
    && req.description.Some? && NotEmpty(req.description.value)
    && req.transactionDate.Some?
  }

  /** The entry a handler writes once the request is accepted. */
  function NewEntry(matter: string, actor: Actor, req: TrustRequest, kind: Kind, balance: real): Entry
    requires Accepted(req)
  {
    Entry(matter, req.transactionDate.value, kind, req.amount.value, balance,
          req.description.value, OrNull(req.referenceNumber), actor.id)
  }

  /** The role gate and the validation chain shared by both routes. */
  function Admit(actor: Actor, req: TrustRequest): (r: Option<HttpError>)
    ensures r.None? <==> Authorized(actor, TrustRoles) && Accepted(req)
    ensures !Authorized(actor, TrustRoles) ==> r == Some(ForbiddenError)
    ensures Authorized(actor, TrustRoles) && !Accepted(req) ==>
      r.Some? && r.value.status == 400 && r.value.reason.ValidationFailed?
      && (forall f :: f in r.value.reason.fields ==> f in ["amount", "description", "transactionDate"])
      && ("amount" in r.value.reason.fields <==> !(req.amount.Some? && req.amount.value >= MinAmount))
      && ("description" in r.value.reason.fields <==> !(req.description.Some? && NotEmpty(req.description.value)))
      && ("transactionDate" in r.value.reason.fields <==> req.transactionDate.None?)
  {
    if !Authorized(actor, TrustRoles) then Some(ForbiddenError)
    else
      var checks := TrustChecks(req);
      var failed := FailedFields(checks);
      assert Accepted(req) <==> checks[0].1 && checks[1].1 && checks[2].1;
      assert checks[0].0 == "amount" && checks[1].0 == "description" && checks[2].0 == "transactionDate";
      assert "amount" != "description" && "amount" != "transactionDate" && "description" != "transactionDate";
      if failed != [] then Some(HttpError(400, ValidationFailed(failed)))
      else None
  }

  /** POST /:id/trust/deposit: appends one deposit entry whose balance is the
      matter's current balance plus the amount. */
  function DepositTo(l: Ledger, matter: string, actor: Actor, req: TrustRequest): (r: Result<Posted, HttpError>)
    ensures r.Failure? <==> !(Authorized(actor, TrustRoles) && Accepted(req))
    ensures r.Failure? ==> Admit(actor, req) == Some(r.error)
    ensures r.Success? ==>
      && r.value.ledger == l + [r.value.entry]
      && r.value.entry.matter == matter && r.value.entry.kind == Deposit
      && r.value.entry.amount == req.amount.value
      && r.value.entry.balance == CurrentBalance(l, matter) + req.amount.value
      && Step(CurrentBalance(l, matter), r.value.entry)
  {
    match Admit(actor, req)
    case Some(err) => Failure(err)
    case None =>
      var entry := NewEntry(matter, actor, req, Deposit, CurrentBalance(l, matter) + req.amount.value);
      Success(Posted(l + [entry], entry))
  }

  /** POST /:id/trust/withdraw: refused with 400 when the current balance is
      below the amount (an equal amount is allowed); otherwise appends one
      withdrawal entry whose balance is the current balance minus the amount. */
  function WithdrawFrom(l: Ledger, matter: string, actor: Actor, req: TrustRequest): (r: Result<Posted, HttpError>)
    ensures r.Failure? <==>
      !(Authorized(actor, TrustRoles) && Accepted(req)) || CurrentBalance(l, matter) < req.amount.value
    ensures Admit(actor, req).Some? ==> r == Failure(Admit(actor, req).value)
    ensures Admit(actor, req).None? && r.Failure? ==>
      r.error == HttpError(400, InsufficientFunds(CurrentBalance(l, matter), req.amount.value))
    ensures r.Success? ==>
      && r.value.ledger == l + [r.value.entry]
      && r.value.entry.matter == matter && r.value.entry.kind == Withdrawal
      && r.value.entry.amount == req.amount.value
      && r.value.entry.balance == CurrentBalance(l, matter) - req.amount.value
      && Step(CurrentBalance(l, matter), r.value.entry)
  {
    match Admit(actor, req)
    case Some(err) => Failure(err)
    case None =>
      var current := CurrentBalance(l, matter);
      if current < req.amount.value then
        Failure(HttpError(400, InsufficientFunds(current, req.amount.value)))
      else
        var entry := NewEntry(matter, actor, req, Withdrawal, current - req.amount.value);
        Success(Posted(l + [entry], entry))
  }

  // ---------------------------------------------------------------------------
  // Runs of requests

  datatype Op =
    | DepositOp(matter: string, actor: Actor, req: TrustRequest)
    | WithdrawOp(matter: string, actor: Actor, req: TrustRequest)

  /** The outcome of one request. */
  function Apply(l: Ledger, op: Op): Result<Posted, HttpError> {
    match op
    case DepositOp(m, a, q) => DepositTo(l, m, a, q)
    case WithdrawOp(m, a, q) => WithdrawFrom(l, m, a, q)
  }

  /** The ledger after one request: a refused request writes nothing, an
      accepted one appends exactly the entry its handler wrote. */
  function Next(l: Ledger, op: Op): (l': Ledger)
    ensures Apply(l, op).Failure? ==> l' == l
    ensures Apply(l, op).Success? ==> l' == l + [Apply(l, op).value.entry]
    ensures l' == l || (|l'| == |l| + 1 && l'[..|l|] == l)
  {
    match Apply(l, op)
    case Success(p) =>
      assert p.ledger[..|l|] == l;
      p.ledger
    case Failure(_) => l
  }

  /** The ledger after a sequence of requests, applied in order. */
  function Run(l: Ledger, ops: seq<Op>): (l': Ledger)
    ensures |l| <= |l'| && l'[..|l|] == l
    decreases |ops|
  {
    if |ops| == 0 then l else Run(Next(l, ops[0]), ops[1..])
  }

  /** Every handler outcome keeps the ledger valid. */
  lemma NextPreservesValid(l: Ledger, op: Op)
    requires Valid(l)
    ensures Valid(Next(l, op))
  {
    var r := Apply(l, op);
    if r.Success? {
      AppendPreservesValid(l, r.value.entry);
    }
  }

  /** Any sequence of requests from a valid ledger (the empty one included)
      leaves a valid ledger, whose balances are therefore all non-negative. */
  lemma {:induction false} RunPreservesValid(l: Ledger, ops: seq<Op>)
    requires Valid(l)
    ensures Valid(Run(l, ops))
    ensures forall i :: 0 <= i < |Run(l, ops)| ==> Run(l, ops)[i].balance >= 0.0
    decreases |ops|
  {
    if |ops| > 0 {
      NextPreservesValid(l, ops[0]);
      RunPreservesValid(Next(l, ops[0]), ops[1..]);
    }
    ValidNonNegative(Run(l, ops));
  }

  /** Starting from an empty trust table, no sequence of requests can ever
      record a negative balance. */
  lemma RunFromEmptyNonNegative(ops: seq<Op>)
    ensures forall i :: 0 <= i < |Run([], ops)| ==> Run([], ops)[i].balance >= 0.0
  {
    RunPreservesValid([], ops);
  }

  /** Posting to one matter leaves every other matter's balance as it was. */
  lemma {:induction false} PostTouchesOnlyItsMatter(l: Ledger, e: Entry, m: string)
    requires e.matter != m
    ensures CurrentBalance(l + [e], m) == CurrentBalance(l, m)
    ensures CurrentBalance(l + [e], e.matter) == e.balance
  {
    assert (l + [e])[..|l|] == l;
  }

  // ---------------------------------------------------------------------------
  // The dashboard trust total

  /** Sum of the latest balance of every matter not in `seen`, reading the
      ledger from its newest entry back: the first entry met for a matter is
      its latest, and older entries of that matter are skipped. */
  function TotalFrom(l: Ledger, seen: set<string>): real
    decreases |l|
  {
    if |l| == 0 then 0.0
    else
      var e := l[|l| - 1];
      if e.matter in seen then TotalFrom(l[..|l| - 1], seen)
      else e.balance + TotalFrom(l[..|l| - 1], seen + {e.matter})
  }

  /** The dashboard's total of funds held in trust. */
  function TrustTotal(l: Ledger): real {
    TotalFrom(l, {})
  }

  /** The matters that have at least one entry. */
  function MattersOf(l: Ledger): (ms: set<string>)
    ensures forall m :: m in ms <==> exists i :: 0 <= i < |l| && l[i].matter == m
  {
    set i | 0 <= i < |l| :: l[i].matter
  }

  /** The sum of the current balances of the listed matters. */
  function SumBalances(l: Ledger, ms: seq<string>): real {
    if |ms| == 0 then 0.0 else CurrentBalance(l, ms[0]) + SumBalances(l, ms[1..])
  }

  /** Taking one unseen matter out of the total gives its current balance. */
  lemma {:induction false} TotalFromSplit(l: Ledger, seen: set<string>, m: string)
    requires m !in seen
    ensures TotalFrom(l, seen) == CurrentBalance(l, m) + TotalFrom(l, seen + {m})
    decreases |l|
  {
    if |l| > 0 {
      var init := l[..|l| - 1];
      var e := l[|l| - 1];
      if e.matter == m {
      } else if e.matter in seen {
        TotalFromSplit(init, seen, m);
      } else {
        TotalFromSplit(init, seen + {e.matter}, m);
        assert seen + {e.matter} + {m} == seen + {m} + {e.matter};
      }
    }
  }

  /** Once every matter with entries has been seen, nothing is left to add. */
  lemma {:induction false} TotalFromAllSeen(l: Ledger, seen: set<string>)
    requires MattersOf(l) <= seen
    ensures TotalFrom(l, seen) == 0.0
    decreases |l|
  {
    if |l| > 0 {
      var init := l[..|l| - 1];
      assert l[|l| - 1].matter in MattersOf(l);
      assert MattersOf(init) <= MattersOf(l) by {
        forall m | m in MattersOf(init)
          ensures m in MattersOf(l)
        {
          var i :| 0 <= i < |init| && init[i].matter == m;
          assert l[i] == init[i];
        }
      }
      TotalFromAllSeen(init, seen);
    }
  }

  /** The running total over a list of distinct matters. */
  lemma {:induction false} TotalFromSum(l: Ledger, seen: set<string>, ms: seq<string>)
    requires forall i, j :: 0 <= i < j < |ms| ==> ms[i] != ms[j]
    requires forall i :: 0 <= i < |ms| ==> ms[i] !in seen
    requires forall m :: m in MattersOf(l) ==> m in seen || m in ms
    ensures TotalFrom(l, seen) == SumBalances(l, ms)
    decreases |ms|
  {
    if |ms| == 0 {
      TotalFromAllSeen(l, seen);
    } else {
      TotalFromSplit(l, seen, ms[0]);
      forall i | 0 <= i < |ms[1..]|
        ensures ms[1..][i] !in seen + {ms[0]}
      {
        assert ms[1..][i] == ms[i + 1];
      }
      forall m | m in MattersOf(l)
        ensures m in seen + {ms[0]} || m in ms[1..]
      {
        if m !in seen && m != ms[0] {
          var k :| 0 <= k < |ms| && ms[k] == m;
          assert ms[1..][k - 1] == m;
        }
      }
      TotalFromSum(l, seen + {ms[0]}, ms[1..]);
    }
  }

  /** The trust total is the sum, over the distinct matters that have
      entries, of each matter's current balance. */
  lemma TrustTotalIsSumOfBalances(l: Ledger, ms: seq<string>)
    requires forall i, j :: 0 <= i < j < |ms| ==> ms[i] != ms[j]
    requires forall m :: m in MattersOf(l) ==> m in ms
    ensures TrustTotal(l) == SumBalances(l, ms)
  {
    TotalFromSum(l, {}, ms);
  }

  /** Appending an entry changes the total by the difference between the new
      balance and its matter's previous balance. */
  lemma TrustTotalAfterPost(l: Ledger, e: Entry)
    ensures TrustTotal(l + [e]) == TrustTotal(l) - CurrentBalance(l, e.matter) + e.balance
  {
    var l' := l + [e];
    assert l'[..|l'| - 1] == l;
    TotalFromSplit(l, {}, e.matter);
    assert {} + {e.matter} == {e.matter};
  }

  /** Total over a chained-from-zero ledger is never negative. */
  lemma {:induction false} TotalFromNonNegative(l: Ledger, seen: set<string>)
    requires forall i :: 0 <= i < |l| ==> l[i].balance >= 0.0
    ensures TotalFrom(l, seen) >= 0.0
    decreases |l|
  {
    if |l| > 0 {
      var init := l[..|l| - 1];
      assert forall i :: 0 <= i < |init| ==> init[i] == l[i];
      TotalFromNonNegative(init, seen);
      TotalFromNonNegative(init, seen + {l[|l| - 1].matter});
    }
  }

  /** The dashboard total of a valid ledger is non-negative. */
  lemma TrustTotalNonNegative(l: Ledger)
    requires Valid(l)
    ensures TrustTotal(l) >= 0.0
  {
    ValidNonNegative(l);
    TotalFromNonNegative(l, {});
  }

  // ---------------------------------------------------------------------------
  // A worked run

  /** K5,000 deposited to an empty matter; a K6,000 withdrawal is refused
      with both amounts reported and changes nothing; a K2,000 withdrawal then
      leaves K3,000; withdrawing all of that leaves 0. */
  lemma DepositWithdrawScenario(partner: Actor, m: string, d: Date)
    requires partner.role == "Partner"
    ensures var dep := TrustRequest(Some(5000.0), Some("Retainer"), Some(d), None);
      var big := TrustRequest(Some(6000.0), Some("Settlement"), Some(d), None);
      var small := TrustRequest(Some(2000.0), Some("Filing fees"), Some(d), None);
      var rest := TrustRequest(Some(3000.0), Some("Refund"), Some(d), None);
      var l1 := DepositTo([], m, partner, dep).value.ledger;
      && CurrentBalance(l1, m) == 5000.0
      && WithdrawFrom(l1, m, partner, big) == Failure(HttpError(400, InsufficientFunds(5000.0, 6000.0)))
      && Next(l1, WithdrawOp(m, partner, big)) == l1
      && var l2 := WithdrawFrom(l1, m, partner, small).value.ledger;
      && CurrentBalance(l2, m) == 3000.0
      && var l3 := WithdrawFrom(l2, m, partner, rest).value.ledger;
      && CurrentBalance(l3, m) == 0.0
  {
    var dep := TrustRequest(Some(5000.0), Some("Retainer"), Some(d), None);
    var big := TrustRequest(Some(6000.0), Some("Settlement"), Some(d), None);
    var small := TrustRequest(Some(2000.0), Some("Filing fees"), Some(d), None);
    var rest := TrustRequest(Some(3000.0), Some("Refund"), Some(d), None);
    assert Authorized(partner, TrustRoles);
    var l1 := DepositTo([], m, partner, dep).value.ledger;
    var l2 := WithdrawFrom(l1, m, partner, small).value.ledger;
    PostTouchesOnlyItsMatter([], l1[0], m + "x");
    assert l2 == l1 + [l2[1]];
    PostTouchesOnlyItsMatter(l1, l2[1], m + "x");
    var l3 := WithdrawFrom(l2, m, partner, rest).value.ledger;
    PostTouchesOnlyItsMatter(l2, l3[2], m + "x");
  }
}
