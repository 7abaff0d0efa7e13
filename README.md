# Donation intake of python-nb-donate, modelled in Dafny

python-nb-donate is the donation site of a hackerspace: a Flask application that takes
card donations through Stripe and records each one as a `Transaction` between two
`Account`s of its ledger. This project models the parts of it that decide something:

- **Donation form parsing** (`get_donation_params`): the posted form is an ordered
  multimap (`Forms.Form`); the amount list is filtered of placeholder entries, the first
  survivor becomes the charge, required keys raise KeyError when absent, the donor name
  defaults to "Anonymous", and the `recurring` / `anonymous` flags come from key presence
  alone.
- **Transaction assembly** (`model_stripe_data`): single-row lookups of the project and
  the currency, find-or-create of the donor's payer account keyed by (email, currency), a
  loop over the project's accounts in which the last account in the donation currency
  wins, and the resulting `Transaction`. Database reads are inputs (`Ledger.Database`,
  rows in query order); `get_one` is a filter followed by a none / one / many dispatch.
- **Project routes** (`get_project`, `new_project`): lookup by name with its three
  outcomes, and creation of a project with one account named "<project>_<code>_acct".
- **Card-field validation in the browser** (`validate_fields` in donate.js): the field
  record built from the card inputs, with the expiry text split on "/", and the
  first-failure-wins check that every field is a non-empty run of ASCII digits.

Python exceptions and JavaScript `undefined` are values: `Result.Err(...)` carries the
exception a step raises, `Option.None` / `JsValue.Undefined` stand for a missing value.
Amounts are integers of minor units (cents).

Files: `wrappers.dfy` (Option, Result), `forms.dfy`, `donation_params.dfy`, `ledger.dfy`,
`projects.dfy`, `card_validation.dfy`.

Where the code and its own documentation differ, the model follows the code: the
`Account` docstring (donate/models.py:144-146) says an account increases or decreases with
the sum of its transactions, but no code computes a balance, so none is modelled; and the
`get_project` docstring (donate/routes.py:270-271) says an unknown project name shows the
new-project page, while the code raises TypeError there (see Findings). The routes
also use `Project.accounts`, `Project.desc` and `Account.ccy`, which the schema in
donate/models.py does not declare; the model follows the routes.

## Model

| member | source | states |
|---|---|---|
| `Forms.GetList` | donate/routes.py:55 | `getlist(k)` yields exactly the values sent under `k` and no others |
| `Forms.GetListAppend` | donate/routes.py:55 | `getlist` of a form sent in two parts is the first part's list followed by the second's: submission order and repeats are kept |
| `Forms.GetListSingle` | donate/routes.py:55 | one pair contributes its value iff its key is `k` (with the previous row this fixes `getlist` on every form) |
| `Forms.Contains` | donate/routes.py:62-63 | `k in form` holds iff some value was sent under `k`, whatever the value |
| `Forms.Lookup` | donate/routes.py:59 | `form[k]` fails (KeyError) exactly when no entry has key `k`; otherwise it gives a value sent under `k` |
| `Forms.GetOr` | donate/routes.py:60 | `form.get(k, d)` gives the first value sent under `k` when the key is present and `d` otherwise |
| `Forms.LookupIsHeadOfList` | donate/routes.py:54-61 | `form[k]` is the first element of `getlist(k)`; a key is present exactly when its value list is non-empty |
| `DonationParams.KeepCharges` | donate/routes.py:54-56 | the filtered amount list keeps exactly the entries that are not "", "other" or " ", and is no longer than the input |
| `DonationParams.KeepChargesAppend` | donate/routes.py:54-56 | filtering distributes over concatenation, so survivors keep their original order |
| `DonationParams.KeepChargesSingle` | donate/routes.py:56 | a single entry survives exactly when it is not a placeholder (with the previous row this fixes the filter on every list) |
| `DonationParams.KeepChargesIdempotent` | donate/routes.py:54-58 | filtering twice equals filtering once; the filtered list is empty exactly when every entry is a placeholder (the case where `charges[0]` raises) |
| `DonationParams.GetDonationParams` | donate/routes.py:53-65 | a parsed record holds a non-placeholder amount and email, token and project values that were all sent under their keys; a KeyError names one of those three keys and that key is absent |
| `DonationParams.ParamsOnSuccess` | donate/routes.py:53-65 | parsing succeeds iff some amount survives and email, stripe token and project keys are present; the record then holds the first survivor, the first value of each required key, the name or "Anonymous", and flags true iff their keys were sent, whatever their values |
| `DonationParams.ParamsOnFailure` | donate/routes.py:58-64 | no surviving amount raises IndexError regardless of other keys; otherwise KeyError names the first absent key in the order email, stripe token, project |
| `Ledger.Select` | donate/routes.py:273 | a filtered query returns exactly the matching rows |
| `Ledger.GetOne` | donate/routes.py:80-81 | `get_one` returns a matching row that every other matching row equals, NoResultFound iff no row matches, MultipleResultsFound iff two positions match |
| `Ledger.SelectEmptyIff` | donate/routes.py:273-274 | a query returns no row iff no row of the table matches |
| `Ledger.SelectAtLeastTwo` | donate/routes.py:80-81 | a query returns two or more rows iff two distinct positions match |
| `Ledger.GetOneOkIffUnique` | donate/routes.py:80-81 | `get_one` succeeds iff exactly one position matches |
| `Ledger.ResolvePayer` | donate/routes.py:85-94 | the payer is named after the email in the donation currency; an existing matching account is reused; with none, a new unstored account (email, currency) is made; it fails only with MultipleResultsFound, iff two stored accounts match |
| `Ledger.LastWithCode` | donate/routes.py:96-98 | the chosen index holds the currency code and no later account does; none is chosen iff no account holds the code |
| `Ledger.SelectReceiver` | donate/routes.py:96-105 | the receiver loop returns the last project account in the currency, and nothing (NoResultFound) iff there is none |
| `Ledger.TransactionFor` | donate/routes.py:68-112 | a built transaction has the given amount, a stored USD currency row, a payer named after the email in that currency and a USD receiver; outside single-currency mode nothing is built |
| `Ledger.ModelStripeData` | donate/routes.py:68-112 | the method returns what the step-by-step lookups prescribe (`TransactionFor`), error by error |
| `Ledger.TransactionForBuildsTransfer` | donate/routes.py:107-110 | a built transaction carries the converted amount unchanged, the single currency, the resolved payer (stored one if it exists, otherwise new) and the last project account in that currency as receiver |
| `Ledger.TransactionForSucceeds` | donate/routes.py:80-105 | assembly succeeds iff single-currency mode is on, the project and currency each match one row, the payer lookup is not ambiguous and the project holds an account in the currency |
| `Ledger.TransactionForFailures` | donate/routes.py:71-105 | each step's exception once the earlier steps succeed: unknown or duplicated project, unset `ccy_name` outside single-currency mode, no or several USD currency rows, two stored payer accounts, and NoResultFound when the project has no USD account |
| `Projects.GetProjectAsWritten` | donate/routes.py:273-281 | as written: TypeError iff no project has the name; a rendered page is always that of a stored project with the name, titled with it |
| `Projects.GetProject` | donate/routes.py:268-281 | corrected: the new-project page iff no project has the name; otherwise that project's page titled with the name, or the duplicate-name ValueError |
| `Projects.GetProjectDispatch` | donate/routes.py:273-281 | corrected lookup: no project named gives the new-project page, exactly one gives its page titled with the name, two give the duplicate-name ValueError |
| `Projects.UnknownProjectNameRaises` | donate/routes.py:274-275 | as written, an unknown name raises TypeError, while the corrected lookup gives the new-project page |
| `Projects.GetProjectAgreesWhenNamed` | donate/routes.py:276-281 | when some project has the name, the written and corrected lookups agree |
| `Projects.AccountNameFor` | donate/routes.py:295 | the account name starts with the project name and is six characters longer than project name plus code |
| `Projects.AccountNameInjective` | donate/routes.py:295 | for codes of equal length, the account name determines project name and code |
| `Projects.NewProject` | donate/routes.py:288-301 | a created project has exactly one new, unstored account, held in a stored currency and named "<project>_<code>_acct"; a KeyError names an absent key |
| `Projects.NewProjectShape` | donate/routes.py:288-301 | a created project has the first submitted name and description and the parsed first goal, and one new account named "<project>_<code>_acct" held in the one currency with the first submitted code |
| `Projects.NewProjectReceivesDonations` | donate/routes.py:295-301 | a project just created in USD gets its one account chosen by the donation receiver loop |
| `CardValidation.IndexOf` | donate/static/js/donate.js:33-34 | gives the first position of a character, or none when absent |
| `CardValidation.ReplaceFirst` | donate/static/js/donate.js:17 | `replace` with a string pattern changes only the first occurrence; every other character is kept |
| `CardValidation.FieldMessage` | donate/static/js/donate.js:15-21 | a field yields a message exactly when it is not a non-empty all-digit string |
| `CardValidation.FieldMessageCases` | donate/static/js/donate.js:16-20 | undefined gives "No <key> value entered."; an empty string or one with any non-digit gives "Invalid credit card <key> value." |
| `CardValidation.FirstFailure` | donate/static/js/donate.js:14-22 | no message iff every field passes; otherwise the message of a failing field all of whose predecessors pass |
| `CardValidation.ValidateFields` | donate/static/js/donate.js:12-23 | the loop with early return gives the first-failure verdict; undefined iff all fields pass |
| `CardValidation.FirstFailureStops` | donate/static/js/donate.js:14-21 | the first failing field alone decides the message; later fields are never looked at |
| `CardValidation.Split` | donate/static/js/donate.js:33 | `split("/")` yields at least one piece and no piece contains "/" |
| `CardValidation.JoinSplit` | donate/static/js/donate.js:33 | joining the pieces of a split with "/" gives the text back |
| `CardValidation.SplitJoin` | donate/static/js/donate.js:33 | pieces free of "/" are recovered by splitting their join |
| `CardValidation.CardFields` | donate/static/js/donate.js:30-35 | the record has the four keys number, cvc, exp_month, exp_year in that order, number and cvc as read; an undefined expiry throws |
| `CardValidation.ExpiryFields` | donate/static/js/donate.js:33-34 | for expiry "M/Y" or "M/Y/...", exp_month is M and exp_year is Y |
| `CardValidation.ExpYearMessage` | donate/static/js/donate.js:17 | the missing-year message reads "No exp year value entered." |
| `CardValidation.ExpiryWithoutSlash` | donate/static/js/donate.js:16-17 | with no "/", exp_month is the whole text, exp_year is undefined, and if the earlier fields pass the verdict is "No exp year value entered." |

## Findings

| source | as written | input that shows it | evidently intended | confidence | as-written member | corrected member |
|---|---|---|---|---|---|---|
| donate/routes.py:275 | the zero-match branch calls `new_project(project_name)`, but `new_project` (line 285) takes no parameter, so the call raises TypeError | a request for `/projects/x` when no project is named "x" | render the new-project page, as the docstring at lines 270-271 says | high; not executed | `Projects.GetProjectAsWritten` (exhibited by `Projects.UnknownProjectNameRaises`) | `Projects.GetProject` (proved by `Projects.GetProjectDispatch`) |

## Left out

- Amount conversion `int(round(float(x), 2) * 100)` (donate/routes.py:76, 135): floating point; `ModelStripeData` takes the converted amount in cents as an input, and a non-numeric amount (ValueError) is not modelled.
- `ModelStripeData`: both failed project lookups and the missing receiver raise the same `NoResultFound` class in the source; the model tells them apart by the step that failed.
- `get_one` lives in donate/util.py, which is not part of this model; it is modelled as its comment at donate/routes.py:78-79 describes it (none, exactly one, or several rows).
- Rows are values, not ORM objects: only `Account` carries its `id` column (`None` for an account built in the request); `Currency` and `Project` rows carry no id, so the payer filter `{'ccy': ccy}` (donate/routes.py:88) compares currencies by name and code rather than by row, and two identical project rows are told apart only by their position; lazy loading and session identity maps are not modelled.
- All `db.session` add / commit / rollback, and the database's uniqueness and foreign-key enforcement, including the failure a commit would meet because the built transaction has no requestor or approver: persistence is outside the model.
- Stripe calls (`create_charge`, `Stripe.card.createToken`) and Stripe error handling (donate/routes.py:138-159): external service.
- The recurring-donation branch creating StripeSubscription / StripePlan (donate/routes.py:162-196): ORM wiring around a plan name formatted from the amount.
- The `donation` route's own exception handling: it catches KeyError and ValueError from parsing but not the IndexError raised when no amount survives; the model stops at the parsing result.
- `index` and `projects` sorting projects by name (donate/routes.py:232-234, 260-261): a library sort over query results.
- `new_project` on GET and the page contents of every route: template rendering; `new_account` has an empty body.
- `NewProject`: Python's `int` on the goal text is a parameter (`parseInt`), not modelled.
- Flask routing, `flash` / `redirect`, logging and the git SHA lookup: web plumbing.
- donate.js DOM handling (`displayError`, `resetErrors`, button toggling, custom-amount and anonymous toggles, form submission): user interface.
- donate/models.py column declarations and `flask_validator` hooks: enforced by libraries and the database; only the field shapes of Currency, Account, Project and Transaction are used.
- Account balances and timestamp refresh: no code in the repository computes them.
