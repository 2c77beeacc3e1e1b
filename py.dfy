/**
 * The slice of Python semantics the integration relies on: JSON-like values as
 * decoded from the SmartThings status document, truthiness and `x or d`, dict
 * lookups that raise on non-dicts, membership tests, and the string helpers
 * `strip`, `lower`, `startswith` and `endswith`.
 */
module Py {

  datatype Option<T> = None | Some(value: T)

  /** A decoded JSON value. A dict is kept as its entries in insertion order,
      which is the order Python iterates them in. */
  datatype Value =
    | Null
    | Bool(b: bool)
    | Int(i: int)
    | Float(f: real)
    | Str(s: string)
    | List(items: seq<Value>)
    | Dict(entries: seq<(string, Value)>)

  /** The Python exceptions the integration can run into on a malformed document. */
  datatype Exc = TypeError | AttributeError | KeyError | ValueError

  /** A Python evaluation that either produces a value or raises; `:-`
      propagates the exception as Python does. */
  datatype Result<T> = Ok(value: T) | Raised(exc: Exc) {
    predicate IsFailure() {
      Raised?
    }

    function PropagateFailure<U>(): Result<U>
      requires Raised?
    {
      Raised(exc)
    }

    function Extract(): T
      requires Ok?
    {
      value
    }
  }

  /** The list `prefix` followed by whatever `rest` evaluates to; an exception
      in `rest` discards `prefix`. */
  function Then<T>(prefix: seq<T>, rest: Result<seq<T>>): (r: Result<seq<T>>)
    ensures r.Ok? <==> rest.Ok?
    ensures r.Ok? ==> r.value == prefix + rest.value
    ensures r.Raised? ==> r.exc == rest.exc
  {
    match rest
    case Ok(xs) => Ok(prefix + xs)
    case Raised(e) => Raised(e)
  }

  lemma ThenThen<T>(a: seq<T>, b: seq<T>, rest: Result<seq<T>>)
    ensures Then(a, Then(b, rest)) == Then(a + b, rest)
  {
    if rest.Ok? {
      assert a + (b + rest.value) == (a + b) + rest.value;
    }
  }

  lemma ThenNothing<T>(rest: Result<seq<T>>)
    ensures Then([], rest) == rest
  {
    if rest.Ok? {
      assert [] + rest.value == rest.value;
    }
  }

  const EmptyDict: Value := Dict([])
  const EmptyList: Value := List([])

  /** Python's `bool(v)`. */
  predicate Truthy(v: Value) {
    match v
    case Null => false
    case Bool(b) => b
    case Int(i) => i != 0
    case Float(f) => f != 0.0
    case Str(s) => |s| > 0
    case List(xs) => |xs| > 0
    case Dict(es) => |es| > 0
  }

  /** Python's `v or d`. */
  function Or(v: Value, d: Value): (r: Value)
    ensures Truthy(v) ==> r == v
    ensures !Truthy(v) ==> r == d
  {
    if Truthy(v) then v else d
  }

  /** `isinstance(v, (int, float))`; a Python bool is an int. */
  predicate IsNumber(v: Value) {
    v.Bool? || v.Int? || v.Float?
  }

  // ---------------------------------------------------------------- dicts

  /** Keys of a dict's entries, in order. */
  function KeysOf(es: seq<(string, Value)>): (ks: seq<string>)
    ensures |ks| == |es|
    ensures forall i :: 0 <= i < |es| ==> ks[i] == es[i].0
  {
    if es == [] then [] else [es[0].0] + KeysOf(es[1..])
  }

  /** The value stored under `k`, scanning entries in order. */
  function Find(es: seq<(string, Value)>, k: string): (r: Option<Value>)
    ensures r.Some? <==> k in KeysOf(es)
  {
    if es == [] then None
    else if es[0].0 == k then Some(es[0].1)
    else Find(es[1..], k)
  }

  /** A Python dict never holds a key twice. */
  ghost predicate UniqueKeys(es: seq<(string, Value)>) {
    forall i, j :: 0 <= i < j < |es| ==> es[i].0 != es[j].0
  }

  /** Every dict nested anywhere in `v` has distinct keys. */
  ghost predicate WellFormed(v: Value) {
    match v
    case List(xs) => forall i :: 0 <= i < |xs| ==> WellFormed(xs[i])
    case Dict(es) => UniqueKeys(es) && forall i :: 0 <= i < |es| ==> WellFormed(es[i].1)
    case _ => true
  }

  /** Dropping the first entry of a dict keeps its keys distinct, and the
      first key does not occur again. */
  lemma UniqueKeysTail(es: seq<(string, Value)>)
    requires UniqueKeys(es) && es != []
    ensures UniqueKeys(es[1..]) && es[0].0 !in KeysOf(es[1..])
  {
  }

  /** Splitting a well-formed dict into its first entry and the rest. */
  lemma WellFormedSplit(es: seq<(string, Value)>)
    requires WellFormed(Dict(es)) && es != []
    ensures WellFormed(es[0].1) && WellFormed(Dict(es[1..]))
    ensures UniqueKeys(es[1..]) && es[0].0 !in KeysOf(es[1..])
  {
    UniqueKeysTail(es);
    forall i | 0 <= i < |es[1..]|
      ensures WellFormed(es[1..][i].1)
    {
      assert es[1..][i] == es[i + 1];
    }
  }

  /** What a lookup finds in a well-formed dict is well formed. */
  lemma FindWellFormed(es: seq<(string, Value)>, k: string)
    requires WellFormed(Dict(es)) && Find(es, k).Some?
    ensures WellFormed(Find(es, k).value)
  {
    FindIn(es, k, Find(es, k).value);
  }

  /** `v.get(k, d)`. */
  function Get(v: Value, k: string, d: Value): (r: Result<Value>)
    ensures r.Raised? <==> !v.Dict?
    ensures r.Raised? ==> r.exc == AttributeError
  {
    if v.Dict? then Ok(match Find(v.entries, k) case Some(x) => x case None => d)
    else Raised(AttributeError)
  }

  /** `v.items()`. */
  function Items(v: Value): (r: Result<seq<(string, Value)>>)
    ensures r.Ok? <==> v.Dict?
    ensures r.Ok? ==> r.value == v.entries
  {
    if v.Dict? then Ok(v.entries) else Raised(AttributeError)
  }

  /** `v.keys()`. */
  function Keys(v: Value): (r: Result<seq<string>>)
    ensures r.Ok? <==> v.Dict?
  {
    if v.Dict? then Ok(KeysOf(v.entries)) else Raised(AttributeError)
  }

  /** `needle in container` for a string needle. */
  function Contains(container: Value, needle: string): (r: Result<bool>)
    ensures r.Raised? <==> container.Null? || container.Bool? || container.Int? || container.Float?
  {
    match container
    case Dict(es) => Ok(needle in KeysOf(es))
    case List(xs) => Ok(Str(needle) in xs)
    case Str(s) => Ok(IsSubstring(needle, s))
    case _ => Raised(TypeError)
  }

  /** `v[k]` for a string key. */
  function Subscript(v: Value, k: string): (r: Result<Value>)
    ensures r.Ok? <==> v.Dict? && k in KeysOf(v.entries)
  {
    if v.Dict? then
      match Find(v.entries, k)
      case Some(x) => Ok(x)
      case None => Raised(KeyError)
    else Raised(TypeError)
  }

  lemma {:induction false} FindIn(es: seq<(string, Value)>, k: string, v: Value)
    requires Find(es, k) == Some(v)
    ensures (k, v) in es
  {
    if es[0].0 != k {
      FindIn(es[1..], k, v);
    }
  }

  lemma {:induction false} FindUnique(es: seq<(string, Value)>, i: nat)
    requires UniqueKeys(es) && i < |es|
    ensures Find(es, es[i].0) == Some(es[i].1)
  {
    if i > 0 {
      assert UniqueKeys(es[1..]);
      FindUnique(es[1..], i - 1);
    }
  }

  /** An entry whose key no earlier entry has is what lookup finds. */
  lemma {:induction false} FindAt(es: seq<(string, Value)>, i: nat)
    requires i < |es| && forall j :: 0 <= j < i ==> es[j].0 != es[i].0
    ensures Find(es, es[i].0) == Some(es[i].1)
  {
    if i > 0 {
      assert es[1..][i - 1] == es[i];
      FindAt(es[1..], i - 1);
    }
  }

  lemma {:induction false} FindFirst(es: seq<(string, Value)>, k: string)
    requires k in KeysOf(es)
    ensures exists i :: 0 <= i < |es| && es[i].0 == k && Find(es, k) == Some(es[i].1)
  {
    if es[0].0 != k {
      FindFirst(es[1..], k);
      var i :| 0 <= i < |es[1..]| && es[1..][i].0 == k && Find(es[1..], k) == Some(es[1..][i].1);
      assert es[i + 1] == es[1..][i];
    } else {
      assert es[0].0 == k && Find(es, k) == Some(es[0].1);
    }
  }

  // ------------------------------------------------------------ key paths

  /** The value at `path` when every level on the way is a dict holding the
      next key; None as soon as one is not. */
  function Follow(v: Value, path: seq<string>): Option<Value>
    decreases |path|
  {
    if path == [] then Some(v)
    else if v.Dict? then
      match Find(v.entries, path[0])
      case Some(c) => Follow(c, path[1..])
      case None => None
    else None
  }

  /** One step of a path lookup in a dict: the first entry, or the rest. */
  lemma FollowStep(es: seq<(string, Value)>, path: seq<string>)
    requires es != [] && path != []
    ensures Follow(Dict(es), path) ==
      if es[0].0 == path[0] then Follow(es[0].1, path[1..]) else Follow(Dict(es[1..]), path)
  {
  }

  /** A lookup along a non-empty path that finds something went through a
      dict holding the first key. */
  lemma FollowFirst(v: Value, path: seq<string>)
    requires path != [] && Follow(v, path).Some?
    ensures v.Dict? && Find(v.entries, path[0]).Some?
    ensures Follow(v, path) == Follow(Find(v.entries, path[0]).value, path[1..])
  {
  }

  /** Every level reached along `path` is a dict or falsy, so that looking the
      next key up in it cannot raise. */
  predicate DictsAlong(v: Value, path: seq<string>)
    decreases |path|
  {
    if path == [] || !Truthy(v) then true
    else if v.Dict? then
      match Find(v.entries, path[0])
      case Some(c) => DictsAlong(c, path[1..])
      case None => true
    else false
  }

  /** A lookup along `a + b` is a lookup along `a`, then along `b`. */
  lemma {:induction false} FollowAppend(v: Value, a: seq<string>, b: seq<string>)
    ensures Follow(v, a + b) == match Follow(v, a) case Some(x) => Follow(x, b) case None => None
    decreases |a|
  {
    if a != [] {
      assert (a + b)[0] == a[0] && (a + b)[1..] == a[1..] + b;
      if v.Dict? {
        match Find(v.entries, a[0])
        case Some(c) => FollowAppend(c, a[1..], b);
        case None =>
      }
    } else {
      assert a + b == b;
    }
  }

  /** A path that can be followed has dicts all along it. */
  lemma {:induction false} FollowDictsAlong(v: Value, path: seq<string>)
    requires Follow(v, path).Some?
    ensures DictsAlong(v, path)
    decreases |path|
  {
    if path != [] {
      FollowDictsAlong(Find(v.entries, path[0]).value, path[1..]);
    }
  }

  /** Dicts along `a`, then along `b` from where `a` leads, are dicts along
      `a + b`. */
  lemma {:induction false} DictsAlongAppend(v: Value, a: seq<string>, b: seq<string>)
    requires Follow(v, a).Some? && DictsAlong(Follow(v, a).value, b)
    ensures DictsAlong(v, a + b)
    decreases |a|
  {
    if a == [] {
      assert a + b == b;
    } else {
      assert (a + b)[0] == a[0] && (a + b)[1..] == a[1..] + b;
      DictsAlongAppend(Find(v.entries, a[0]).value, a[1..], b);
    }
  }

  /** A path that reaches None and goes on: the lookup beyond finds nothing
      and nothing along it raises. */
  lemma NullPrefix(v: Value, a: seq<string>, b: seq<string>)
    requires Follow(v, a) == Some(Null) && b != []
    ensures DictsAlong(v, a + b) && Follow(v, a + b) == None
  {
    FollowAppend(v, a, b);
    DictsAlongAppend(v, a, b);
  }

  /** The chain `x = (x or {}).get(k)` over the keys of `path`, ending with the
      last value looked up. */
  function Walk(v: Value, path: seq<string>): Result<Value>
    decreases |path|
  {
    if path == [] then Ok(v)
    else
      var next :- Get(Or(v, EmptyDict), path[0], Null);
      Walk(next, path[1..])
  }

  lemma {:induction false} WalkFromNull(path: seq<string>)
    ensures Walk(Null, path) == Ok(Null)
    decreases |path|
  {
    if path != [] {
      WalkFromNull(path[1..]);
    }
  }

  /** The `or {}` chain never raises on absent keys or falsy levels: it raises
      exactly when it meets a non-empty non-dict, it yields the value at the
      path when all of it is present, and None otherwise. */
  lemma {:induction false} WalkMeaning(v: Value, path: seq<string>)
    ensures Walk(v, path) ==
      if DictsAlong(v, path) then Ok(match Follow(v, path) case Some(x) => x case None => Null)
      else Raised(AttributeError)
    decreases |path|
  {
    if path == [] {
    } else if !Truthy(v) {
      WalkFromNull(path[1..]);
      assert v.Dict? ==> v.entries == [];
    } else if v.Dict? {
      match Find(v.entries, path[0])
      case Some(c) => WalkMeaning(c, path[1..]);
      case None => WalkFromNull(path[1..]);
    }
  }

  // -------------------------------------------------------------- strings

  predicate StartsWith(s: string, p: string) {
    |p| <= |s| && s[..|p|] == p
  }

  predicate EndsWith(s: string, p: string) {
    |p| <= |s| && s[|s| - |p|..] == p
  }

  predicate IsSubstring(p: string, s: string)
    decreases |s|
  {
    StartsWith(s, p) || (|s| > 0 && IsSubstring(p, s[1..]))
  }

  /** `str.lower()` on ASCII letters; every other character is kept. */
  function LowerChar(c: char): char {
    if 'A' <= c <= 'Z' then (c as int + 32) as char else c
  }

  function Lower(s: string): (r: string)
    ensures |r| == |s|
    ensures forall i :: 0 <= i < |s| ==> r[i] == LowerChar(s[i])
  {
    seq(|s|, i requires 0 <= i < |s| => LowerChar(s[i]))
  }

  /** Lowering twice lowers once. */
  lemma LowerIdempotent(s: string)
    ensures Lower(Lower(s)) == Lower(s)
  {
    forall i | 0 <= i < |s|
      ensures Lower(Lower(s))[i] == Lower(s)[i]
    {
      assert Lower(Lower(s))[i] == LowerChar(LowerChar(s[i]));
    }
  }

  /** `str.isspace()` for one character: the characters Python strips. */
  predicate IsSpace(c: char) {
    || '\U{0009}' <= c <= '\U{000D}'
    || '\U{001C}' <= c <= '\U{0020}'
    || c == '\U{0085}' || c == '\U{00A0}' || c == '\U{1680}'
    || '\U{2000}' <= c <= '\U{200A}'
    || c == '\U{2028}' || c == '\U{2029}' || c == '\U{202F}' || c == '\U{205F}' || c == '\U{3000}'
  }

  /** A string with no whitespace at either end. */
  predicate Stripped(s: string) {
    s == [] || (!IsSpace(s[0]) && !IsSpace(s[|s| - 1]))
  }

  function StripLeft(s: string): (r: string)
    ensures r == [] || !IsSpace(r[0])
    ensures |r| <= |s| && r == s[|s| - |r|..]
    ensures forall i :: 0 <= i < |s| - |r| ==> IsSpace(s[i])
  {
    if |s| > 0 && IsSpace(s[0]) then StripLeft(s[1..]) else s
  }

  function StripRight(s: string): (r: string)
    ensures r == [] || !IsSpace(r[|r| - 1])
    ensures |r| <= |s| && r == s[..|r|]
    ensures forall i :: |r| <= i < |s| ==> IsSpace(s[i])
  {
    if |s| > 0 && IsSpace(s[|s| - 1]) then StripRight(s[..|s| - 1]) else s
  }

  /** Number of leading whitespace characters of `s`. */
  function LeadingSpace(s: string): (n: nat)
    ensures n <= |s|
  {
    |s| - |StripLeft(s)|
  }

  /** `str.strip()`: the slice of `s` left after removing whitespace from both
      ends; it has no whitespace at either end, and everything removed is
      whitespace. */
  function Strip(s: string): (r: string)
    ensures Stripped(r)
    ensures LeadingSpace(s) + |r| <= |s| && r == s[LeadingSpace(s)..LeadingSpace(s) + |r|]
    ensures forall i :: 0 <= i < LeadingSpace(s) ==> IsSpace(s[i])
    ensures forall i :: LeadingSpace(s) + |r| <= i < |s| ==> IsSpace(s[i])
  {
    var l := StripLeft(s);
    var r := StripRight(l);
    assert r != [] ==> r[0] == l[0];
    r
  }

  lemma StripLeftStripped(s: string)
    requires Stripped(s)
    ensures StripLeft(s) == s
  {
  }

  lemma StripRightStripped(s: string)
    requires Stripped(s)
    ensures StripRight(s) == s
  {
  }

  /** Stripping a string that has no whitespace at either end changes nothing;
      in particular `strip` is idempotent. */
  lemma StrippedIsFixedPoint(s: string)
    requires Stripped(s)
    ensures Strip(s) == s
  {
    StripLeftStripped(s);
    StripRightStripped(s);
  }

  /** One trailing whitespace character is all that strip removes from a
      stripped, non-empty string followed by it. */
  lemma StripOneTrailingSpace(s: string, c: char)
    requires s != [] && Stripped(s) && IsSpace(c)
    ensures Strip(s + [c]) == s
  {
    var t := s + [c];
    assert t[0] == s[0];
    assert StripLeft(t) == t;
    assert t[..|t| - 1] == s;
    StripRightStripped(s);
  }

  lemma StripIdempotent(s: string)
    ensures Strip(Strip(s)) == Strip(s)
  {
    StrippedIsFixedPoint(Strip(s));
  }

  /** A string strips to nothing exactly when it is all whitespace. */
  lemma StripEmptyIffBlank(s: string)
    ensures Strip(s) == [] <==> forall i :: 0 <= i < |s| ==> IsSpace(s[i])
  {
    var r := Strip(s);
    if r != [] {
      assert r[0] == s[LeadingSpace(s)];
    }
  }

  // ------------------------------------------------------------- float()

  predicate IsDigit(c: char) {
    '0' <= c <= '9'
  }

  predicate AllDigits(s: string) {
    forall i :: 0 <= i < |s| ==> IsDigit(s[i])
  }

  function DigitValue(c: char): nat
    requires IsDigit(c)
  {
    (c as int - '0' as int) as nat
  }

  /** The integer a string of decimal digits spells. */
  function DigitsValue(s: string): nat
    requires AllDigits(s)
  {
    if s == [] then 0 else DigitsValue(s[..|s| - 1]) * 10 + DigitValue(s[|s| - 1])
  }

  /** The fraction `0.d1d2...` a string of decimal digits spells. */
  function FractionValue(s: string): real
    requires AllDigits(s)
  {
    if s == [] then 0.0 else (DigitValue(s[0]) as real + FractionValue(s[1..])) / 10.0
  }

  /** The position of the first '.', or the length when there is none. */
  function DotIndex(s: string): (k: nat)
    ensures k <= |s| && forall i :: 0 <= i < k ==> s[i] != '.'
    ensures k < |s| ==> s[k] == '.'
  {
    if s == [] || s[0] == '.' then 0 else 1 + DotIndex(s[1..])
  }

  /** The sign of a stripped numeral and the rest of it. */
  function SplitSign(t: string): (bool, string) {
    if |t| > 0 && (t[0] == '-' || t[0] == '+') then (t[0] == '-', t[1..]) else (false, t)
  }

  /** The value of an unsigned decimal: digits with at most one point and at
      least one digit. */
  function DecimalValue(body: string): (r: Option<real>)
    ensures r.Some? ==> body != []
  {
    var k := DotIndex(body);
    var whole := body[..k];
    var frac := if k < |body| then body[k + 1..] else [];
    if AllDigits(whole) && AllDigits(frac) && |whole| + |frac| > 0 then
      Some(DigitsValue(whole) as real + FractionValue(frac))
    else None
  }

  /** A stripped numeral: an optional sign, then an unsigned decimal. */
  function SignedDecimal(t: string): (r: Option<real>)
    ensures r.Some? ==> t != []
  {
    var (neg, body) := SplitSign(t);
    match DecimalValue(body)
    case Some(m) => Some(if neg then -m else m)
    case None => None
  }

  /** The information separators U+001C..U+001F. `str.isspace` holds for them,
      but `int()` and `float()` do not skip them around a numeral: those two
      keep ASCII characters as they are and skip only tab, line feed, vertical
      tab, form feed, carriage return and space, after turning every non-ASCII
      whitespace character into a space. */
  predicate IsSeparator(c: char) {
    '\U{001C}' <= c <= '\U{001F}'
  }

  /** What `strip()` removes from either end of `s` is whitespace that `int()`
      and `float()` skip as well: it holds no separator. */
  predicate NumericPadding(s: string) {
    forall i :: 0 <= i < |s| && !(LeadingSpace(s) <= i < LeadingSpace(s) + |Strip(s)|) ==> !IsSeparator(s[i])
  }

  /** `float(s)` for a decimal string: surrounding whitespace, other than the
      separators, around a signed decimal. */
  function ParseDecimal(s: string): (r: Option<real>)
    ensures r.Some? ==> Strip(s) != [] && NumericPadding(s)
  {
    if NumericPadding(s) then SignedDecimal(Strip(s)) else None
  }

  /** Python's `float(v)`: a bool or a number converts, a string is parsed,
      anything else raises TypeError. */
  function ToFloat(v: Value): (r: Result<real>)
    ensures v.Bool? ==> r == Ok(if v.b then 1.0 else 0.0)
    ensures v.Int? ==> r == Ok(v.i as real)
    ensures v.Float? ==> r == Ok(v.f)
    ensures v.Str? && ParseDecimal(v.s).Some? ==> r == Ok(ParseDecimal(v.s).value)
    ensures r.Raised? ==> (r.exc == ValueError <==> v.Str?)
    ensures r.Raised? <==> !(v.Bool? || v.Int? || v.Float?) && !(v.Str? && ParseDecimal(v.s).Some?)
  {
    match v
    case Bool(b) => Ok(if b then 1.0 else 0.0)
    case Int(i) => Ok(i as real)
    case Float(f) => Ok(f)
    case Str(s) => if ParseDecimal(s).Some? then Ok(ParseDecimal(s).value) else Raised(ValueError)
    case _ => Raised(TypeError)
  }

  /** `str(n)` for a natural number. */
  function NatToString(n: nat): (s: string)
    ensures s != [] && AllDigits(s)
  {
    var d := ['0' + (n % 10) as char];
    if n < 10 then d else NatToString(n / 10) + d
  }

  lemma {:induction false} NatToStringValue(n: nat)
    ensures DigitsValue(NatToString(n)) == n
  {
    var s := NatToString(n);
    assert s[..|s| - 1] == if n < 10 then [] else NatToString(n / 10);
    if n >= 10 {
      NatToStringValue(n / 10);
    }
  }

  lemma {:induction false} DotIndexOfDigits(s: string)
    requires AllDigits(s)
    ensures DotIndex(s) == |s|
  {
    if s != [] {
      DotIndexOfDigits(s[1..]);
    }
  }

  lemma SignOrDigitNotSpace(c: char)
    requires IsDigit(c) || c == '-'
    ensures !IsSpace(c)
  {
  }

  /** A signed run of digits is already stripped, and its sign splits off. */
  lemma SignedDigits(digits: string, neg: bool)
    requires digits != [] && AllDigits(digits)
    ensures var s := if neg then "-" + digits else digits;
      Strip(s) == s && SplitSign(s) == (neg, digits)
  {
    var s := if neg then "-" + digits else digits;
    var last := digits[|digits| - 1];
    if neg {
      assert s[0] == '-' && s[|s| - 1] == last && s[1..] == digits;
    } else {
      assert s[0] == digits[0] && s[|s| - 1] == last;
    }
    SignOrDigitNotSpace(s[0]);
    SignOrDigitNotSpace(last);
    assert Stripped(s);
    StrippedIsFixedPoint(s);
  }

  lemma DecimalValueOfDigits(digits: string)
    requires digits != [] && AllDigits(digits)
    ensures DecimalValue(digits) == Some(DigitsValue(digits) as real)
  {
    DotIndexOfDigits(digits);
    assert digits[..|digits|] == digits;
  }

  lemma SignedDecimalOfDigits(t: string, neg: bool, digits: string)
    requires digits != [] && AllDigits(digits) && SplitSign(t) == (neg, digits)
    ensures SignedDecimal(t) == Some((if neg then -(DigitsValue(digits) as int) else DigitsValue(digits)) as real)
  {
    DecimalValueOfDigits(digits);
  }

  /** `float()` of a string already stripped that splits into a sign and
      digits. */
  lemma ParseDecimalOfSigned(s: string, neg: bool, digits: string)
    requires digits != [] && AllDigits(digits)
    requires Strip(s) == s && SplitSign(s) == (neg, digits)
    ensures ParseDecimal(s) == Some((if neg then -(DigitsValue(digits) as int) else DigitsValue(digits)) as real)
  {
    SignedDecimalOfDigits(s, neg, digits);
  }

  lemma ParseDecimalOfDigits(digits: string, neg: bool)
    requires digits != [] && AllDigits(digits)
    ensures ParseDecimal(if neg then "-" + digits else digits) ==
      Some((if neg then -(DigitsValue(digits) as int) else DigitsValue(digits)) as real)
  {
    SignedDigits(digits, neg);
    ParseDecimalOfSigned(if neg then "-" + digits else digits, neg, digits);
  }

  /** Reading back an integer written in decimal gives the integer. */
  lemma ParseDecimalOfInt(i: int)
    ensures ParseDecimal(if i < 0 then "-" + NatToString(-i) else NatToString(i)) == Some(i as real)
  {
    var n: nat := if i < 0 then -i else i;
    var digits := NatToString(n);
    NatToStringValue(n);
    ParseDecimalOfDigits(digits, i < 0);
    assert (if i < 0 then -(DigitsValue(digits) as int) else DigitsValue(digits)) == i;
  }


  // --------------------------------------------------------------- int()

  /** A stripped integer numeral: an optional sign and at least one digit. */
  function SignedInt(t: string): (r: Option<int>)
    ensures r.Some? ==> t != []
  {
    var (neg, body) := SplitSign(t);
    if body != [] && AllDigits(body) then
      Some(if neg then -(DigitsValue(body) as int) else DigitsValue(body))
    else None
  }

  /** `int(s)` for a string: surrounding whitespace, other than the
      separators, around a signed integer numeral. */
  function ParseInt(s: string): (r: Option<int>)
    ensures r.Some? ==> Strip(s) != [] && NumericPadding(s)
  {
    if NumericPadding(s) then SignedInt(Strip(s)) else None
  }

  /** Python's `int(v)`: a bool or an int converts, a float is truncated
      toward zero, a string is parsed, anything else raises TypeError. */
  function ToInt(v: Value): (r: Result<int>)
    ensures v.Bool? ==> r == Ok(if v.b then 1 else 0)
    ensures v.Int? ==> r == Ok(v.i)
    ensures v.Str? && ParseInt(v.s).Some? ==> r == Ok(ParseInt(v.s).value)
    ensures v.Float? && v.f >= 0.0 ==> r.Ok? && r.value as real <= v.f < r.value as real + 1.0
    ensures v.Float? && v.f < 0.0 ==> r.Ok? && v.f <= r.value as real < v.f + 1.0
    ensures r.Raised? ==> (r.exc == ValueError <==> v.Str?)
    ensures r.Raised? <==> !(v.Bool? || v.Int? || v.Float?) && !(v.Str? && ParseInt(v.s).Some?)
  {
    match v
    case Bool(b) => Ok(if b then 1 else 0)
    case Int(i) => Ok(i)
    case Float(f) => Ok(if f >= 0.0 then f.Floor else -((-f).Floor))
    case Str(s) => if ParseInt(s).Some? then Ok(ParseInt(s).value) else Raised(ValueError)
    case _ => Raised(TypeError)
  }

  /** `int()` of a string already stripped that splits into a sign and
      digits. */
  lemma ParseIntOfSigned(s: string, neg: bool, digits: string)
    requires digits != [] && AllDigits(digits)
    requires Strip(s) == s && SplitSign(s) == (neg, digits)
    ensures ParseInt(s) == Some(if neg then -(DigitsValue(digits) as int) else DigitsValue(digits))
  {
    assert ParseInt(s) == SignedInt(s);
  }

  lemma ParseIntOfDigits(digits: string, neg: bool)
    requires digits != [] && AllDigits(digits)
    ensures ParseInt(if neg then "-" + digits else digits) ==
      Some(if neg then -(DigitsValue(digits) as int) else DigitsValue(digits))
  {
    SignedDigits(digits, neg);
    ParseIntOfSigned(if neg then "-" + digits else digits, neg, digits);
  }

  /** Reading back an integer written in decimal gives the integer. */
  lemma ParseIntOfInt(i: int)
    ensures ParseInt(if i < 0 then "-" + NatToString(-i) else NatToString(i)) == Some(i)
  {
    var n: nat := if i < 0 then -i else i;
    var digits := NatToString(n);
    NatToStringValue(n);
    ParseIntOfDigits(digits, i < 0);
    assert ParseInt(if i < 0 then "-" + digits else digits) == Some(i);
  }

  /** A separator after a numeral is removed by `strip()`, yet it makes `int()`
      and `float()` raise `ValueError`. */
  lemma SeparatorAfterNumeral(t: string, c: char)
    requires t != [] && Stripped(t) && IsSeparator(c)
    ensures Strip(t + [c]) == t
    ensures ToInt(Str(t + [c])) == Raised(ValueError)
    ensures ToFloat(Str(t + [c])) == Raised(ValueError)
  {
    var s := t + [c];
    StripOneTrailingSpace(t, c);
    assert StripLeft(s) == s by { assert s[0] == t[0]; }
    assert s[|t|] == c;
    assert !NumericPadding(s);
  }

  lemma StripPadded(t: string, a: char, b: char)
    requires t != [] && Stripped(t) && IsSpace(a) && IsSpace(b)
    ensures Strip([a] + t + [b]) == t && LeadingSpace([a] + t + [b]) == 1
  {
    var s := [a] + t + [b];
    var u := t + [b];
    assert s[1..] == u && u[0] == t[0];
    assert StripLeft(u) == u;
    StripOneTrailingSpace(t, b);
  }

  lemma PaddedNumeric(t: string, a: char, b: char)
    requires t != [] && Stripped(t) && IsSpace(a) && IsSpace(b)
    requires !IsSeparator(a) && !IsSeparator(b)
    ensures NumericPadding([a] + t + [b]) && NumericPadding(t)
  {
    var s := [a] + t + [b];
    StripPadded(t, a, b);
    forall i | 0 <= i < |s| && !(1 <= i < 1 + |t|)
      ensures !IsSeparator(s[i])
    {
      assert i == 0 || i == |s| - 1;
    }
    StrippedIsFixedPoint(t);
    assert LeadingSpace(t) == 0;
  }

  /** Whitespace other than the separators, one character on each side of a
      stripped string, changes neither `int()` nor `float()` of it. */
  lemma SkippedPadding(t: string, a: char, b: char)
    requires t != [] && Stripped(t)
    requires IsSpace(a) && !IsSeparator(a) && IsSpace(b) && !IsSeparator(b)
    ensures Strip([a] + t + [b]) == t
    ensures ToInt(Str([a] + t + [b])) == ToInt(Str(t))
    ensures ToFloat(Str([a] + t + [b])) == ToFloat(Str(t))
  {
    StripPadded(t, a, b);
    PaddedNumeric(t, a, b);
    StrippedIsFixedPoint(t);
    SameNumeral([a] + t + [b], t);
  }

  /** Two strings that strip to the same text, both padded only with skipped
      whitespace, convert alike. */
  lemma SameNumeral(s: string, t: string)
    requires Strip(s) == Strip(t) && NumericPadding(s) && NumericPadding(t)
    ensures ToInt(Str(s)) == ToInt(Str(t)) && ToFloat(Str(s)) == ToFloat(Str(t))
  {
  }

  /** `str(i)` for an integer: a minus sign for negatives, then the digits. */
  function IntToString(i: int): string {
    if i < 0 then "-" + NatToString(-i) else NatToString(i)
  }

  /** `float(str(i)) == i`: the decimal spelling of an integer converts back
      to that integer. */
  lemma ToFloatOfIntString(i: int)
    ensures ToFloat(Str(IntToString(i))) == Ok(i as real)
  {
    ParseDecimalOfInt(i);
  }

  /** `int(str(i)) == i`. */
  lemma ToIntOfIntString(i: int)
    ensures ToInt(Str(IntToString(i))) == Ok(i)
  {
    ParseIntOfInt(i);
  }

  /** Every string `int()` accepts, `float()` accepts too, with the same
      value. */
  lemma ToFloatOfIntegralString(s: string)
    requires ToInt(Str(s)).Ok?
    ensures ToFloat(Str(s)) == Ok(ToInt(Str(s)).value as real)
  {
    var t := Strip(s);
    var (neg, body) := SplitSign(t);
    assert ParseInt(s).Some?;
    SignedDecimalOfDigits(t, neg, body);
  }

}
