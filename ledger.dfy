/** The ledger entities the donation route touches, the single-row lookup it relies on,
    and the assembly of a donation's Transaction (`model_stripe_data` in donate/routes.py). */
module Ledger {
  import opened Wrappers
  import opened DonationParams

  datatype Currency = Currency(name: string, code: string)

  /** `id` is the primary key of a stored row; an account built during the request and not
      yet flushed to the database has none. */
  datatype Account = Account(id: Option<int>, name: string, ccy: Currency)

  datatype Project = Project(name: string, desc: string, goal: int, accounts: seq<Account>)

  /** A movement of `amount` minor units from `payer` to `recvr`. */
  datatype Transaction = Transaction(amount: int, ccy: Currency, payer: Account, recvr: Account)

  /** The rows of the tables the route reads, in the order a query returns them. */
  datatype Database = Database(projects: seq<Project>, currencies: seq<Currency>, accounts: seq<Account>)

  /** The two exceptions a single-row query raises. */
  datatype LookupError = NoResultFound | MultipleResultsFound

  /** The currency code the route uses when the application runs with a single currency. */
  const SingleCcyCode := "USD"

  /** The rows a filtered query returns, in table order. */
  function Select<T(==, !new)>(rows: seq<T>, p: T -> bool): (hits: seq<T>)
    ensures |hits| <= |rows|
    ensures forall x :: x in hits <==> x in rows && p(x)
  {
    if rows == [] then []
    else
      assert forall x :: x in rows <==> x == rows[0] || x in rows[1..];
      (if p(rows[0]) then [rows[0]] else []) + Select(rows[1..], p)
  }

  /** A query returns no row exactly when no row of the table matches. */
  lemma {:induction false} SelectEmptyIff<T(!new)>(rows: seq<T>, p: T -> bool)
    ensures Select(rows, p) == [] <==> forall x :: x in rows ==> !p(x)
  {
    if rows != [] {
      SelectEmptyIff(rows[1..], p);
      assert rows[0] in rows;
      assert forall x :: x in rows[1..] ==> x in rows;
    }
  }

  /** Two rows at distinct positions of the table match the filter. */
  predicate Ambiguous<T>(rows: seq<T>, p: T -> bool)
  {
    exists i, j :: 0 <= i < j < |rows| && p(rows[i]) && p(rows[j])
  }

  /** Exactly one position of the table matches the filter. */
  predicate UniqueMatch<T>(rows: seq<T>, p: T -> bool)
  {
    exists i :: 0 <= i < |rows| && p(rows[i]) && forall j :: 0 <= j < |rows| && j != i ==> !p(rows[j])
  }

  /** Two matching rows at distinct positions make the query return at least two rows. */
  lemma {:induction false} TwoMatchesSelectTwo<T(!new)>(rows: seq<T>, p: T -> bool, i: nat, j: nat)
    requires i < j < |rows| && p(rows[i]) && p(rows[j])
    ensures |Select(rows, p)| >= 2
  {
    var tail := rows[1..];
    if i == 0 {
      assert tail[j - 1] in tail;
      assert Select(tail, p) != [] by { assert tail[j - 1] in Select(tail, p); }
    } else {
      TwoMatchesSelectTwo(tail, p, i - 1, j - 1);
    }
  }

  /** A query that returns at least two rows has two matching rows at distinct positions. */
  lemma {:induction false} SelectTwoHasTwoMatches<T(!new)>(rows: seq<T>, p: T -> bool) returns (i: nat, j: nat)
    requires |Select(rows, p)| >= 2
    ensures i < j < |rows| && p(rows[i]) && p(rows[j])
  {
    var tail := rows[1..];
    if p(rows[0]) {
      var x := Select(tail, p)[0];
      assert x in Select(tail, p);
      var k :| 0 <= k < |tail| && tail[k] == x;
      i, j := 0, k + 1;
    } else {
      var i', j' := SelectTwoHasTwoMatches(tail, p);
      i, j := i' + 1, j' + 1;
    }
  }

  /** A query returns at least two rows exactly when two distinct rows of the table match. */
  lemma SelectAtLeastTwo<T(!new)>(rows: seq<T>, p: T -> bool)
    ensures |Select(rows, p)| >= 2 <==> Ambiguous(rows, p)
  {
    if |Select(rows, p)| >= 2 {
      var i, j := SelectTwoHasTwoMatches(rows, p);
    }
    if exists i, j :: 0 <= i < j < |rows| && p(rows[i]) && p(rows[j]) {
      var i, j :| 0 <= i < j < |rows| && p(rows[i]) && p(rows[j]);
      TwoMatchesSelectTwo(rows, p, i, j);
    }
  }

  /** `get_one(Model, filters)`: the only matching row, NoResultFound when none matches and
      MultipleResultsFound when two rows match. */
  function GetOne<T(==, !new)>(rows: seq<T>, p: T -> bool): (r: Result<T, LookupError>)
    ensures r.Ok? ==> r.value in rows && p(r.value)
    ensures r.Ok? ==> forall x :: x in rows && p(x) ==> x == r.value
    ensures r == Err(NoResultFound) <==> forall x :: x in rows ==> !p(x)
    ensures r == Err(MultipleResultsFound) <==> Ambiguous(rows, p)
  {
    var hits := Select(rows, p);
    SelectAtLeastTwo(rows, p);
    if |hits| == 0 then
      Err(NoResultFound)
    else if |hits| == 1 then
      assert hits[0] in hits;
      assert forall x :: x in rows && p(x) ==> x == hits[0] by {
        forall x | x in rows && p(x) ensures x == hits[0] {
          assert x in hits;
        }
      }
      Ok(hits[0])
    else
      assert hits[0] in hits;
      Err(MultipleResultsFound)
  }

  /** A single-row query succeeds exactly when one position of the table matches. */
  lemma GetOneOkIffUnique<T(!new)>(rows: seq<T>, p: T -> bool)
    ensures GetOne(rows, p).Ok? <==> UniqueMatch(rows, p)
  {
    if UniqueMatch(rows, p) {
      var k :| 0 <= k < |rows| && p(rows[k]) && forall j :: 0 <= j < |rows| && j != k ==> !p(rows[j]);
      assert rows[k] in rows;
      assert !Ambiguous(rows, p);
    }
    if GetOne(rows, p).Ok? {
      var x := GetOne(rows, p).value;
      var k :| 0 <= k < |rows| && rows[k] == x;
      assert !Ambiguous(rows, p);
      forall j | 0 <= j < |rows| && j != k ensures !p(rows[j]) {
        var xj, xk := rows[j], rows[k];
        if j < k {
          assert !(p(xj) && p(xk));
        } else {
          assert !(p(xk) && p(xj));
        }
      }
    }
  }

  /** The payer account of a donation: the stored account named after the donor's email in
      the donation's currency if there is one, otherwise a new, not yet stored account with
      that name and currency. Only MultipleResultsFound escapes. */
  function ResolvePayer(accounts: seq<Account>, email: string, ccy: Currency): (r: Result<Account, LookupError>)
    ensures r.Ok? ==> r.value.name == email && r.value.ccy == ccy
    ensures (forall a :: a in accounts ==> !(a.name == email && a.ccy == ccy)) ==>
      r == Ok(Account(None, email, ccy))
    ensures (exists a :: a in accounts && a.name == email && a.ccy == ccy) ==>
      r.Ok? ==> r.value in accounts
    ensures r.Err? <==> Ambiguous(accounts, (a: Account) => a.name == email && a.ccy == ccy)
    ensures r.Err? ==> r.error == MultipleResultsFound
  {
    match GetOne(accounts, (a: Account) => a.name == email && a.ccy == ccy)
    case Ok(a) => Ok(a)
    case Err(NoResultFound) => Ok(Account(None, email, ccy))
    case Err(MultipleResultsFound) => Err(MultipleResultsFound)
  }

  /** Index of the last account whose currency code is `code`, if any. */
  function LastWithCode(accts: seq<Account>, code: string): (r: Option<nat>)
    ensures r.Some? ==>
      r.value < |accts| && accts[r.value].ccy.code == code &&
      forall j :: r.value < j < |accts| ==> accts[j].ccy.code != code
    ensures r.None? ==> forall j :: 0 <= j < |accts| ==> accts[j].ccy.code != code
  {
    if accts == [] then None
    else if accts[|accts| - 1].ccy.code == code then Some(|accts| - 1)
    else LastWithCode(accts[..|accts| - 1], code)
  }

  /** The receiver loop of `model_stripe_data`: every account of the project whose currency
      code matches overwrites the previous choice, so the last match wins. */
  method SelectReceiver(accts: seq<Account>, code: string) returns (r: Option<Account>)
    ensures r.None? <==> forall a :: a in accts ==> a.ccy.code != code
    ensures r.Some? ==> r.value in accts && r.value.ccy.code == code
    ensures r == match LastWithCode(accts, code) case None => None case Some(i) => Some(accts[i])
  {
    r := None;
    for i := 0 to |accts|
      invariant r == match LastWithCode(accts[..i], code) case None => None case Some(k) => Some(accts[k])
    {
      assert accts[..i + 1][..i] == accts[..i];
      if accts[i].ccy.code == code {
        r := Some(accts[i]);
      }
    }
    assert accts[..|accts|] == accts;
  }

  /** What `model_stripe_data` returns or raises for a parsed donation whose amount has been
      converted to `amount` minor units, against the rows in `db`; `singleCcy` is the
      SINGLE_CCY configuration flag. */
  function TransactionFor(db: Database, singleCcy: bool, req: Params, amount: int): (r: Result<Transaction, StripeDataError>)
    ensures r.Ok? ==>
      && r.value.amount == amount
      && r.value.ccy in db.currencies && r.value.ccy.code == SingleCcyCode
      && r.value.payer.name == req.email && r.value.payer.ccy == r.value.ccy
      && r.value.recvr.ccy.code == SingleCcyCode
    ensures !singleCcy ==> r.Err?
  {
    match GetOne(db.projects, (p: Project) => p.name == req.projectSelect)
    case Err(e) => Err(ProjectLookup(e))
    case Ok(project) =>
      if !singleCcy then Err(CcyNameUnbound)
      else
        match GetOne(db.currencies, (c: Currency) => c.code == SingleCcyCode)
        case Err(e) => Err(CurrencyLookup(e))
        case Ok(ccy) =>
          match ResolvePayer(db.accounts, req.email, ccy)
          case Err(e) => Err(PayerLookup(e))
          case Ok(payer) =>
            match LastWithCode(project.accounts, SingleCcyCode)
            case None => Err(NoReceiverAccount)
            case Some(i) => Ok(Transaction(amount, ccy, payer, project.accounts[i]))
  }

  /** The exceptions `model_stripe_data` lets escape, by the step that raises them. */
  datatype StripeDataError =
    | ProjectLookup(cause: LookupError)
    | CcyNameUnbound
    | CurrencyLookup(cause: LookupError)
    | PayerLookup(cause: LookupError)
    | NoReceiverAccount

  /** `model_stripe_data(req_data)`. */
  method ModelStripeData(db: Database, singleCcy: bool, req: Params, amount: int)
    returns (r: Result<Transaction, StripeDataError>)
    ensures r == TransactionFor(db, singleCcy, req, amount)
  {
    var project;
    match GetOne(db.projects, (p: Project) => p.name == req.projectSelect) {
      case Err(e) => return Err(ProjectLookup(e));
      case Ok(p) => project := p;
    }
    if !singleCcy {
      return Err(CcyNameUnbound);
    }
    var ccy;
    match GetOne(db.currencies, (c: Currency) => c.code == SingleCcyCode) {
      case Err(e) => return Err(CurrencyLookup(e));
      case Ok(c) => ccy := c;
    }
    var payer;
    match ResolvePayer(db.accounts, req.email, ccy) {
      case Err(e) => return Err(PayerLookup(e));
      case Ok(a) => payer := a;
    }
    var recvr := SelectReceiver(project.accounts, SingleCcyCode);
    match recvr {
      case None => return Err(NoReceiverAccount);
      case Some(to) => return Ok(Transaction(amount, ccy, payer, to));
    }
  }

  /** A donation is recorded as a transfer of exactly the converted amount, in the configured
      currency, from an account named after the donor's email in that currency (the stored one
      if it exists, a new unstored one otherwise) to the last account of the selected project
      held in that currency. */
  lemma TransactionForBuildsTransfer(db: Database, singleCcy: bool, req: Params, amount: int)
    ensures TransactionFor(db, singleCcy, req, amount).Ok? ==>
      var tx := TransactionFor(db, singleCcy, req, amount).value;
      && singleCcy
      && tx.amount == amount
      && tx.ccy in db.currencies && tx.ccy.code == SingleCcyCode
      && tx.payer.name == req.email && tx.payer.ccy == tx.ccy
      && ((exists a :: a in db.accounts && a.name == req.email && a.ccy == tx.ccy) ==> tx.payer in db.accounts)
      && ((forall a :: a in db.accounts ==> !(a.name == req.email && a.ccy == tx.ccy)) ==>
          tx.payer == Account(None, req.email, tx.ccy))
      && tx.recvr.ccy.code == SingleCcyCode
      && exists p, i ::
          p in db.projects && p.name == req.projectSelect && 0 <= i < |p.accounts| && p.accounts[i] == tx.recvr &&
          forall j :: i < j < |p.accounts| ==> p.accounts[j].ccy.code != SingleCcyCode
  {
    var r := TransactionFor(db, singleCcy, req, amount);
    if r.Ok? {
      var p := GetOne(db.projects, (p: Project) => p.name == req.projectSelect).value;
      var i := LastWithCode(p.accounts, SingleCcyCode).value;
      assert p in db.projects && p.accounts[i] == r.value.recvr;
    }
  }

  /** The assembly succeeds exactly when the application runs with a single currency, the
      selected project and that currency each match exactly one row, no two stored accounts
      share the donor's email and that currency, and the project holds an account in that
      currency. */
  lemma TransactionForSucceeds(db: Database, singleCcy: bool, req: Params, amount: int)
    ensures TransactionFor(db, singleCcy, req, amount).Ok? <==>
      && singleCcy
      && UniqueMatch(db.projects, (p: Project) => p.name == req.projectSelect)
      && UniqueMatch(db.currencies, (c: Currency) => c.code == SingleCcyCode)
      && (forall c :: c in db.currencies && c.code == SingleCcyCode ==>
            !Ambiguous(db.accounts, (a: Account) => a.name == req.email && a.ccy == c))
      && (forall p :: p in db.projects && p.name == req.projectSelect ==>
            exists a :: a in p.accounts && a.ccy.code == SingleCcyCode)
  {
    var isProject := (p: Project) => p.name == req.projectSelect;
    var isCcy := (c: Currency) => c.code == SingleCcyCode;
    GetOneOkIffUnique(db.projects, isProject);
    GetOneOkIffUnique(db.currencies, isCcy);
    var gp := GetOne(db.projects, isProject);
    var gc := GetOne(db.currencies, isCcy);
    if gp.Ok? && gc.Ok? {
      var p, c := gp.value, gc.value;
      var isPayer := (a: Account) => a.name == req.email && a.ccy == c;
      if LastWithCode(p.accounts, SingleCcyCode).None? {
        assert forall a :: a in p.accounts ==> a.ccy.code != SingleCcyCode;
      } else {
        var i := LastWithCode(p.accounts, SingleCcyCode).value;
        assert p.accounts[i] in p.accounts;
      }
    }
  }

  /** Which exception escapes when a step fails, each step taken only once the earlier ones
      succeed: the project lookup, the unset currency name outside single-currency mode, the
      currency lookup, an ambiguous payer account, and a project without an account in the
      currency. */
  lemma TransactionForFailures(db: Database, singleCcy: bool, req: Params, amount: int)
    ensures (forall p :: p in db.projects ==> p.name != req.projectSelect) ==>
      TransactionFor(db, singleCcy, req, amount) == Err(ProjectLookup(NoResultFound))
    ensures Ambiguous(db.projects, (p: Project) => p.name == req.projectSelect) ==>
      TransactionFor(db, singleCcy, req, amount) == Err(ProjectLookup(MultipleResultsFound))
    ensures UniqueMatch(db.projects, (p: Project) => p.name == req.projectSelect) && !singleCcy ==>
      TransactionFor(db, singleCcy, req, amount) == Err(CcyNameUnbound)
    ensures
      (UniqueMatch(db.projects, (p: Project) => p.name == req.projectSelect) && singleCcy &&
       (forall c :: c in db.currencies ==> c.code != SingleCcyCode)) ==>
      TransactionFor(db, singleCcy, req, amount) == Err(CurrencyLookup(NoResultFound))
    ensures
      (UniqueMatch(db.projects, (p: Project) => p.name == req.projectSelect) && singleCcy &&
       Ambiguous(db.currencies, (c: Currency) => c.code == SingleCcyCode)) ==>
      TransactionFor(db, singleCcy, req, amount) == Err(CurrencyLookup(MultipleResultsFound))
    ensures
      (UniqueMatch(db.projects, (p: Project) => p.name == req.projectSelect) && singleCcy &&
       UniqueMatch(db.currencies, (c: Currency) => c.code == SingleCcyCode) &&
       (exists c :: c in db.currencies && c.code == SingleCcyCode &&
          Ambiguous(db.accounts, (a: Account) => a.name == req.email && a.ccy == c))) ==>
      TransactionFor(db, singleCcy, req, amount) == Err(PayerLookup(MultipleResultsFound))
    ensures
      (UniqueMatch(db.projects, (p: Project) => p.name == req.projectSelect) && singleCcy &&
       UniqueMatch(db.currencies, (c: Currency) => c.code == SingleCcyCode) &&
       (forall c :: c in db.currencies && c.code == SingleCcyCode ==>
          !Ambiguous(db.accounts, (a: Account) => a.name == req.email && a.ccy == c)) &&
       (forall p, a :: p in db.projects && p.name == req.projectSelect && a in p.accounts ==>
          a.ccy.code != SingleCcyCode)) ==>
      TransactionFor(db, singleCcy, req, amount) == Err(NoReceiverAccount)
  {
    GetOneOkIffUnique(db.projects, (p: Project) => p.name == req.projectSelect);
    GetOneOkIffUnique(db.currencies, (c: Currency) => c.code == SingleCcyCode);
  }
}
