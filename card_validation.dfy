/** The client-side check of the card fields before they are sent to the payment
    provider (`validate_fields` and the field record built in donate/static/js/donate.js). */
module CardValidation {
  import opened Wrappers

  /** What a field of the record can hold: the text of an input, or `undefined`. */
  datatype JsValue = Str(s: string) | Undefined

  /** A property of the field record: its key and its value. */
  type Field = (string, JsValue)

  const NumberKey := "number"
  const CvcKey := "cvc"
  const ExpMonthKey := "exp_month"
  const ExpYearKey := "exp_year"

  predicate IsDigit(c: char)
  {
    '0' <= c <= '9'
  }

  /** The test `/^[0-9]+$/.test(s)`: at least one character, and only ASCII digits. */
  predicate MatchesDigits(s: string)
  {
    |s| > 0 && forall i :: 0 <= i < |s| ==> IsDigit(s[i])
  }

  /** Position of the first occurrence of `c` in `s`, if any. */
  function IndexOf(s: string, c: char): (r: Option<nat>)
    ensures r.Some? ==> r.value < |s| && s[r.value] == c && c !in s[..r.value]
    ensures r.None? ==> c !in s
  {
    if s == [] then None
    else if s[0] == c then Some(0)
    else
      match IndexOf(s[1..], c)
      case None => None
      case Some(k) =>
        assert s[..k + 1] == [s[0]] + s[1..][..k];
        Some(k + 1)
  }

  /** `s.replace(a, b)` with one-character string arguments, which replaces the first
      occurrence of `a` only. */
  function ReplaceFirst(s: string, a: char, b: char): (r: string)
    ensures |r| == |s|
    ensures forall i :: 0 <= i < |s| ==> r[i] == (if s[i] == a && a !in s[..i] then b else s[i])
  {
    if s == [] then []
    else if s[0] == a then
      assert forall i :: 0 < i < |s| ==> s[0] in s[..i];
      [b] + s[1..]
    else
      assert forall i :: 0 < i < |s| ==> s[..i] == [s[0]] + s[1..][..i - 1];
      [s[0]] + ReplaceFirst(s[1..], a, b)
  }

  /** A key as the messages show it: `k.replace("_", " ")`. */
  function DisplayKey(k: string): string
  {
    ReplaceFirst(k, '_', ' ')
  }

  /** The message for a field that holds no string. */
  function NoValueMessage(k: string): string
  {
    "No " + DisplayKey(k) + " value entered."
  }

  /** The message for a string field that is not a run of digits. */
  function InvalidMessage(k: string): string
  {
    "Invalid credit card " + DisplayKey(k) + " value."
  }

  /** A field passes when it holds a non-empty string of ASCII digits. */
  predicate Passes(f: Field)
  {
    f.1.Str? && MatchesDigits(f.1.s)
  }

  /** The message one loop iteration returns for a field, if any. */
  function FieldMessage(f: Field): (m: Option<string>)
    ensures m.None? <==> Passes(f)
  {
    if !f.1.Str? then Some(NoValueMessage(f.0))
    else if !MatchesDigits(f.1.s) then Some(InvalidMessage(f.0))
    else None
  }

  /** Which message a failing field gets: a value that is not a string is reported as not
      entered; an empty string, or one holding any non-digit, as invalid. */
  lemma FieldMessageCases(k: string, s: string)
    ensures FieldMessage((k, Undefined)) == Some(NoValueMessage(k))
    ensures s == [] ==> FieldMessage((k, Str(s))) == Some(InvalidMessage(k))
    ensures (exists i :: 0 <= i < |s| && !IsDigit(s[i])) ==> FieldMessage((k, Str(s))) == Some(InvalidMessage(k))
  {
  }

  /** The verdict on a whole record: the message of the first failing field, in record order,
      or none when every field passes. */
  function FirstFailure(fields: seq<Field>): (r: Option<string>)
    ensures r.None? <==> forall i :: 0 <= i < |fields| ==> Passes(fields[i])
    ensures r.Some? ==>
      exists i :: 0 <= i < |fields| && !Passes(fields[i]) && r == FieldMessage(fields[i]) &&
        forall j :: 0 <= j < i ==> Passes(fields[j])
  {
    if fields == [] then None
    else
      match FieldMessage(fields[0])
      case Some(m) => Some(m)
      case None =>
        var r := FirstFailure(fields[1..]);
        if r.Some? then
          var i :| 0 <= i < |fields[1..]| && !Passes(fields[1..][i]) && r == FieldMessage(fields[1..][i]) &&
            forall j :: 0 <= j < i ==> Passes(fields[1..][j]);
          assert !Passes(fields[i + 1]) && r == FieldMessage(fields[i + 1]) &&
            forall j :: 0 <= j < i + 1 ==> Passes(fields[j]);
          r
        else
          r
  }

  /** `validate_fields(fields)`: walks the record in order and returns the message of the
      first field that is not a string or not all digits; `None` stands for `undefined`. */
  method ValidateFields(fields: seq<Field>) returns (msg: Option<string>)
    ensures msg == FirstFailure(fields)
    ensures msg.None? <==> forall i :: 0 <= i < |fields| ==> Passes(fields[i])
  {
    var i := 0;
    while i < |fields|
      invariant 0 <= i <= |fields|
      invariant FirstFailure(fields) == FirstFailure(fields[i..])
    {
      assert fields[i..][1..] == fields[i + 1..];
      var (k, d) := fields[i];
      if !d.Str? {
        return Some(NoValueMessage(k));
      }
      if !MatchesDigits(d.s) {
        return Some(InvalidMessage(k));
      }
      i := i + 1;
    }
    return None;
  }

  /** The first failing field alone decides the verdict: whatever follows it is never looked at. */
  lemma {:induction false} FirstFailureStops(passed: seq<Field>, f: Field, rest: seq<Field>)
    requires forall i :: 0 <= i < |passed| ==> Passes(passed[i])
    requires !Passes(f)
    ensures FirstFailure(passed + [f] + rest) == FieldMessage(f)
  {
    if passed == [] {
      assert ([f] + rest)[0] == f;
    } else {
      assert (passed + [f] + rest)[1..] == passed[1..] + [f] + rest;
      FirstFailureStops(passed[1..], f, rest);
    }
  }

  /** `s.split(sep)` for a one-character separator: the texts between the separators. */
  function Split(s: string, sep: char): (parts: seq<string>)
    ensures |parts| >= 1
    ensures forall i :: 0 <= i < |parts| ==> sep !in parts[i]
    decreases |s|
  {
    match IndexOf(s, sep)
    case None => [s]
    case Some(k) => [s[..k]] + Split(s[k + 1..], sep)
  }

  /** `parts.join(sep)`, the inverse of Split. */
  function Join(parts: seq<string>, sep: char): (s: string)
    requires |parts| >= 1
  {
    if |parts| == 1 then parts[0] else parts[0] + [sep] + Join(parts[1..], sep)
  }

  /** Splitting at the first separator: the piece before it, then the split of the rest. */
  lemma SplitAtFirst(s: string, sep: char, k: nat)
    requires IndexOf(s, sep) == Some(k)
    ensures Split(s, sep) == [s[..k]] + Split(s[k + 1..], sep)
  {
  }

  /** Splitting loses nothing: joining the pieces gives the text back. */
  lemma {:induction false} JoinSplit(s: string, sep: char)
    ensures Join(Split(s, sep), sep) == s
    decreases |s|
  {
    var r := IndexOf(s, sep);
    if r.Some? {
      var k := r.value;
      var rest := s[k + 1..];
      var tailParts := Split(rest, sep);
      JoinSplit(rest, sep);
      SplitAtFirst(s, sep, k);
      var parts := [s[..k]] + tailParts;
      assert parts[1..] == tailParts;
      assert Join(parts, sep) == s[..k] + [sep] + Join(tailParts, sep);
      assert s == s[..k] + [sep] + rest;
    }
  }

  /** The separator found first in `m + [sep] + t` is the one right after `m`. */
  lemma IndexOfAfterPrefix(m: string, sep: char, t: string)
    requires sep !in m
    ensures IndexOf(m + [sep] + t, sep) == Some(|m|)
  {
    var s := m + [sep] + t;
    assert s[|m|] == sep;
    assert s[..|m|] == m;
  }

  /** Pieces free of the separator come back unchanged from a join followed by a split. */
  lemma {:induction false} SplitJoin(parts: seq<string>, sep: char)
    requires |parts| >= 1
    requires forall i :: 0 <= i < |parts| ==> sep !in parts[i]
    ensures Split(Join(parts, sep), sep) == parts
  {
    if |parts| > 1 {
      var rest := Join(parts[1..], sep);
      IndexOfAfterPrefix(parts[0], sep, rest);
      var s := parts[0] + [sep] + rest;
      assert s[..|parts[0]|] == parts[0];
      assert s[|parts[0]| + 1..] == rest;
      SplitJoin(parts[1..], sep);
    }
  }

  /** The card inputs as the submit handler reads them with `.val()`. */
  datatype CardInputs = CardInputs(number: JsValue, cvc: JsValue, exp: JsValue)

  /** `.split` called on an undefined expiry value throws TypeError. */
  datatype FieldsError = ExpiryUnreadable

  /** The field record built by the submit handler: number and cvc as read, and the expiry
      text split on "/" into month (first piece) and year (second piece, undefined when
      there is none). */
  function CardFields(inputs: CardInputs): (r: Result<seq<Field>, FieldsError>)
    ensures r.Ok? ==> |r.value| == 4 && r.value[0] == (NumberKey, inputs.number) && r.value[1] == (CvcKey, inputs.cvc)
    ensures r.Ok? ==> r.value[2].0 == ExpMonthKey && r.value[3].0 == ExpYearKey
    ensures r.Err? <==> inputs.exp.Undefined?
  {
    match inputs.exp
    case Undefined => Err(ExpiryUnreadable)
    case Str(e) =>
      var parts := Split(e, '/');
      Ok([(NumberKey, inputs.number),
          (CvcKey, inputs.cvc),
          (ExpMonthKey, Str(parts[0])),
          (ExpYearKey, if |parts| > 1 then Str(parts[1]) else Undefined)])
  }

  /** With an expiry of the form month "/" year, optionally followed by a further "/...",
      the month field is the text before the first "/" and the year field the text
      between the first and the second. */
  lemma ExpiryFields(number: JsValue, cvc: JsValue, month: string, year: string, tail: string)
    requires '/' !in month && '/' !in year
    requires tail == [] || tail[0] == '/'
    ensures
      var r := CardFields(CardInputs(number, cvc, Str(month + "/" + year + tail)));
      r.Ok? && r.value[2] == (ExpMonthKey, Str(month)) && r.value[3] == (ExpYearKey, Str(year))
  {
    IndexOfAfterPrefix(month, '/', year + tail);
    var e := month + "/" + year + tail;
    assert e == month + ['/'] + (year + tail);
    assert e[..|month|] == month;
    assert e[|month| + 1..] == year + tail;
    assert Split(e, '/') == [month] + Split(year + tail, '/');
    if tail == [] {
      assert year + tail == year;
      assert IndexOf(year, '/') == None;
      assert Split(year, '/') == [year];
    } else {
      IndexOfAfterPrefix(year, '/', tail[1..]);
      assert year + tail == year + ['/'] + tail[1..];
      assert (year + tail)[..|year|] == year;
      assert Split(year + tail, '/')[0] == year;
    }
  }

  /** The message for a missing year shows its key with the underscore replaced. */
  lemma ExpYearMessage()
    ensures NoValueMessage(ExpYearKey) == "No exp year value entered."
  {
    assert "_year"[1..] == "year";
    assert ReplaceFirst("_year", '_', ' ') == " year";
    assert "p_year"[1..] == "_year";
    assert ReplaceFirst("p_year", '_', ' ') == "p year";
    assert "xp_year"[1..] == "p_year";
    assert ReplaceFirst("xp_year", '_', ' ') == "xp year";
    assert "exp_year"[1..] == "xp_year";
    assert DisplayKey(ExpYearKey) == "exp year";
  }

  /** An expiry without "/" leaves the year undefined: the month is the whole text, and a
      record whose earlier fields all pass is rejected with "No exp year value entered.". */
  lemma ExpiryWithoutSlash(number: string, cvc: string, exp: string)
    requires '/' !in exp
    ensures
      var r := CardFields(CardInputs(Str(number), Str(cvc), Str(exp)));
      && r.Ok? && r.value[2] == (ExpMonthKey, Str(exp)) && r.value[3] == (ExpYearKey, Undefined)
      && (MatchesDigits(number) && MatchesDigits(cvc) && MatchesDigits(exp) ==>
            FirstFailure(r.value) == Some("No exp year value entered."))
  {
    assert Split(exp, '/') == [exp];
    var fields := CardFields(CardInputs(Str(number), Str(cvc), Str(exp))).value;
    var passed := [(NumberKey, Str(number)), (CvcKey, Str(cvc)), (ExpMonthKey, Str(exp))];
    assert fields == passed + [(ExpYearKey, Undefined)] + [];
    if MatchesDigits(number) && MatchesDigits(cvc) && MatchesDigits(exp) {
      FirstFailureStops(passed, (ExpYearKey, Undefined), []);
      ExpYearMessage();
    }
  }
}
