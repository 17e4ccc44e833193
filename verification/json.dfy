/**
 * The JavaScript values the dashboard moves around untyped: the wizard's
 * draft slots, form values and the rows a list page keeps. Only the
 * behaviour the pages rely on is modelled: object spread (`{...a, ...b}`),
 * property lookup and truthiness.
 */
module Json {
  import opened Text

  datatype Value =
    | Undefined
    | Null
    | Bool(b: bool)
    | Num(n: int)
    | Str(s: string)
    | Arr(items: seq<Value>)
    | Obj(fields: map<string, Value>)

  /** `typeof v === 'object' && !Array.isArray(v) && v !== null`. */
  predicate IsPlainObject(v: Value) {
    v.Obj?
  }

  /** Different indices have different decimal names. */
  lemma DecimalInjective()
    ensures forall i: nat, j: nat {:trigger NatToDecimal(i), NatToDecimal(j)} ::
      NatToDecimal(i) == NatToDecimal(j) ==> i == j
  {
    forall i: nat, j: nat | NatToDecimal(i) == NatToDecimal(j)
      ensures i == j
    {
      DecimalRoundTrip(i);
      DecimalRoundTrip(j);
    }
  }

  /** Properties named by the decimal indices of a sequence, as arrays and strings have. */
  function IndexKeyed(items: seq<Value>): (m: map<string, Value>)
    ensures forall i :: 0 <= i < |items| ==> NatToDecimal(i) in m && m[NatToDecimal(i)] == items[i]
  {
    if |items| == 0 then map[]
    else
      var n := |items| - 1;
      DecimalInjective();
      IndexKeyed(items[..n])[NatToDecimal(n) := items[n]]
  }

  /**
   * The own enumerable properties that `{...v}` copies: an object's fields,
   * the indexed elements of an array or the characters of a string, and
   * nothing for the other primitives.
   */
  function Spread(v: Value): (m: map<string, Value>)
    ensures v.Obj? ==> m == v.fields
    ensures v.Arr? ==> forall i :: 0 <= i < |v.items| ==>
      NatToDecimal(i) in m && m[NatToDecimal(i)] == v.items[i]
    ensures v.Str? ==> forall i :: 0 <= i < |v.s| ==>
      NatToDecimal(i) in m && m[NatToDecimal(i)] == Str([v.s[i]])
    ensures !(v.Obj? || v.Arr? || v.Str?) ==> m == map[]
  {
    match v
    case Obj(fields) => fields
    case Arr(items) => IndexKeyed(items)
    case Str(s) => IndexKeyed(seq(|s|, i requires 0 <= i < |s| => Str([s[i]])))
    case _ => map[]
  }

  /** `{...target, ...v}` for an object `target`: later keys win, earlier keys survive. */
  function Merge(target: map<string, Value>, v: Value): (r: map<string, Value>)
    ensures r.Keys == target.Keys + Spread(v).Keys
    ensures forall k :: k in Spread(v) ==> r[k] == Spread(v)[k]
    ensures forall k :: k in target && k !in Spread(v) ==> r[k] == target[k]
  {
    target + Spread(v)
  }

  /** `v[key]` on an object; a missing key, or a non-object, reads as `undefined`. */
  function Get(v: Value, key: string): (r: Value)
    ensures v.Obj? && key in v.fields ==> r == v.fields[key]
    ensures !(v.Obj? && key in v.fields) ==> r == Undefined
  {
    if v.Obj? && key in v.fields then v.fields[key] else Undefined
  }

  /** JavaScript truthiness (`NaN` is not modelled: numbers are integers here). */
  predicate Truthy(v: Value) {
    match v
    case Undefined => false
    case Null => false
    case Bool(b) => b
    case Num(n) => n != 0
    case Str(s) => s != ""
    case Arr(_) => true
    case Obj(_) => true
  }

  /** antd's `required` rule: `undefined`, `null`, an empty string or an empty array fail it. */
  predicate Filled(v: Value) {
    !(v.Undefined? || v.Null? || v == Str("") || v == Arr([]))
  }

  // ---------------------------------------------------------------------------
  // async-validator's `type: 'email'` rule

  /** JavaScript's `\s`: the white-space and line-terminator code points. */
  predicate JsSpace(c: char) {
    c == ' ' || c == '\t' || c == '\n' || c == '\U{000B}' || c == '\U{000C}' || c == '\r'
    || c == '\U{00A0}' || c == '\U{1680}' || ('\U{2000}' <= c <= '\U{200A}')
    || c == '\U{2028}' || c == '\U{2029}' || c == '\U{202F}' || c == '\U{205F}'
    || c == '\U{3000}' || c == '\U{FEFF}'
  }

  /** A character of an unquoted local-part atom: `[^<>()\[\]\\.,;:\s@"]`. */
  predicate AtomChar(c: char) {
    && !(c == '<' || c == '>' || c == '(' || c == ')' || c == '[' || c == ']' || c == '\\')
    && !(c == '.' || c == ',' || c == ';' || c == ':' || c == '@' || c == '"')
    && !JsSpace(c)
  }

  predicate AsciiLetter(c: char) {
    'a' <= c <= 'z' || 'A' <= c <= 'Z'
  }

  /** A character of a domain label, ASCII only: `[a-zA-Z\-0-9]`. */
  predicate LabelChar(c: char) {
    AsciiLetter(c) || IsDigit(c) || c == '-'
  }

  /**
   * One or more non-empty runs of `ok` characters joined by single dots:
   * `ok+(\.ok+)*`. Neither kind of run admits a dot itself.
   */
  predicate DotSeparated(s: string, ok: char -> bool) {
    && |s| > 0 && s[0] != '.' && s[|s| - 1] != '.'
    && (forall i :: 0 <= i < |s| ==> s[i] == '.' || ok(s[i]))
    && (forall i :: 0 <= i < |s| - 1 ==> !(s[i] == '.' && s[i + 1] == '.'))
  }

  /** `([a-zA-Z\-0-9]+\.)+[a-zA-Z]{2,}`: labels, a last dot, then two or more letters. */
  predicate DomainName(d: string) {
    exists j :: 0 <= j < |d| && d[j] == '.' && DotSeparated(d[..j], LabelChar)
      && |d| - j - 1 >= 2 && (forall k :: j < k < |d| ==> AsciiLetter(d[k]))
  }

  /**
   * The address shape async-validator accepts: at most 320 characters, a
   * dot-atom local part, `@`, and a host name.
   */
  predicate IsEmail(s: string) {
    && |s| <= 320
    && exists i :: 0 <= i < |s| && s[i] == '@' && DotSeparated(s[..i], AtomChar) && DomainName(s[i + 1..])
  }

  /**
   * The `type: 'email'` rule on a field: an empty value is left to the
   * `required` rule; anything else must be a string of the address shape.
   */
  predicate EmailRule(v: Value) {
    !Filled(v) || (v.Str? && IsEmail(v.s))
  }

  /** An accepted address has exactly one `@`, and it splits the text into local part and host. */
  lemma EmailHasOneAt(s: string)
    ensures IsEmail(s) ==> forall i, j :: 0 <= i < j < |s| ==> !(s[i] == '@' && s[j] == '@')
  {
    if IsEmail(s) {
      var at :| 0 <= at < |s| && s[at] == '@' && DotSeparated(s[..at], AtomChar) && DomainName(s[at + 1..]);
      LocalPartHasNoAt(s, at);
      HostHasNoAt(s, at);
    }
  }

  lemma LocalPartHasNoAt(s: string, at: int)
    requires 0 <= at <= |s| && DotSeparated(s[..at], AtomChar)
    ensures forall m :: 0 <= m < at ==> s[m] != '@'
  {
    forall m | 0 <= m < at
      ensures s[m] != '@'
    {
      assert s[..at][m] == s[m];
    }
  }

  lemma HostHasNoAt(s: string, at: int)
    requires 0 <= at < |s| && DomainName(s[at + 1..])
    ensures forall m :: at < m < |s| ==> s[m] != '@'
  {
    var d := s[at + 1..];
    var k :| 0 <= k < |d| && d[k] == '.' && DotSeparated(d[..k], LabelChar)
      && |d| - k - 1 >= 2 && (forall m :: k < m < |d| ==> AsciiLetter(d[m]));
    forall m | at < m < |s|
      ensures s[m] != '@'
    {
      assert d[m - at - 1] == s[m];
      if m - at - 1 < k {
        assert d[..k][m - at - 1] == s[m];
      }
    }
  }

  /** A typical address passes the rule, and so does an empty field (left to `required`). */
  lemma EmailRuleAccepts()
    ensures EmailRule(Str("ana@mail.co"))
    ensures EmailRule(Str(""))
  {
    var s := "ana@mail.co";
    var d := "mail.co";
    assert s[..3] == "ana" && s[4..] == d && d[..4] == "mail";
    assert AtomChar('a') && AtomChar('n');
    DotlessRun("ana", AtomChar);
    DotlessRun("mail", LabelChar);
    assert d[4] == '.' && AsciiLetter(d[5]) && AsciiLetter(d[6]);
    assert DomainName(d);
    assert s[3] == '@';
  }

  /** A non-empty run of `ok` characters with no dot in it is a single dot-separated run. */
  lemma DotlessRun(s: string, ok: char -> bool)
    requires |s| > 0 && forall i :: 0 <= i < |s| ==> s[i] != '.' && ok(s[i])
    ensures DotSeparated(s, ok)
  {
  }

  /** Text without an `@`, or whose host has no dot, fails the rule. */
  lemma EmailRuleRejects()
    ensures !EmailRule(Str("ana"))
    ensures !EmailRule(Str("ana@mail"))
  {
    var t := "ana@mail";
    assert forall i :: 0 <= i < |t| && t[i] == '@' ==> i == 3;
    assert t[4..] == "mail";
    DotlessIsNoHost("mail");
  }

  lemma DotlessIsNoHost(d: string)
    requires forall k :: 0 <= k < |d| ==> d[k] != '.'
    ensures !DomainName(d)
  {
  }

  // ---------------------------------------------------------------------------
  // The antd form store

  /** The value a form field holds: `undefined` until something is written to it. */
  function FieldValue(form: map<string, Value>, name: string): Value {
    if name in form then form[name] else Undefined
  }

  /** What `onFinish` receives: the value of every mounted field. */
  function Values(form: map<string, Value>, names: seq<string>): (m: map<string, Value>)
    ensures forall k :: k in m <==> k in names
    ensures forall k :: k in m ==> m[k] == FieldValue(form, k)
  {
    if |names| == 0 then map[]
    else Values(form, names[1..])[names[0] := FieldValue(form, names[0])]
  }

  /**
   * A form mounting with `initialValues`: each initial value fills a key the
   * store does not hold yet, and every value already in the store wins.
   */
  function MergeInitial(initial: map<string, Value>, store: map<string, Value>): (r: map<string, Value>)
    ensures r.Keys == initial.Keys + store.Keys
    ensures forall k :: k in store ==> r[k] == store[k]
    ensures forall k :: k in initial && k !in store ==> r[k] == initial[k]
  {
    map k | k in initial.Keys + store.Keys :: if k in store then store[k] else initial[k]
  }

  /** Mounting twice with the same initial values is mounting once. */
  lemma MergeInitialIdempotent(initial: map<string, Value>, store: map<string, Value>)
    ensures MergeInitial(initial, MergeInitial(initial, store)) == MergeInitial(initial, store)
  {
  }

  /** A store that already holds every initial key is left as it is. */
  lemma MergeInitialCovered(initial: map<string, Value>, store: map<string, Value>)
    requires initial.Keys <= store.Keys
    ensures MergeInitial(initial, store) == store
  {
  }

  predicate Validates(form: map<string, Value>, required: seq<string>) {
    forall k :: k in required ==> Filled(FieldValue(form, k))
  }

  /** The required inputs that are still empty, in form order. */
  function MissingOf(form: map<string, Value>, required: seq<string>): (missing: seq<string>)
    ensures |missing| == 0 <==> Validates(form, required)
    ensures forall k :: k in missing <==> k in required && !Filled(FieldValue(form, k))
  {
    if |required| == 0 then []
    else
      var rest := MissingOf(form, required[1..]);
      assert forall k :: k in required <==> k == required[0] || k in required[1..];
      if Filled(FieldValue(form, required[0])) then rest else [required[0]] + rest
  }
}
