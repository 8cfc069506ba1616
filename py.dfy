/** The small part of Python's runtime behaviour that the schema layer
    relies on: its scalar values, `==` and truthiness on them, the text that
    `str()` / `%s` / `{}` and `repr()` give for them, `str.join`, and the
    exceptions the code lets escape. */
module Py {

  datatype Option<T> = None | Some(value: T)

  /** The exceptions the modelled code raises and does not catch. */
  datatype Error =
    | KeyError(key: string)         // `d[k]` or `d.pop(k)` on a missing key
    | TypeError(message: string)    // `str.join` meeting an item that is not a str
    | AssertionError(message: string)

  datatype Result<T> = Ok(value: T) | Err(error: Error)

  /** The scalar values held in field definitions and in row entries. */
  datatype Value = PyNone | PyBool(b: bool) | PyInt(i: int) | PyStr(s: string)

  /** `isinstance(v, int)`: true of ints and of bools, since bool subclasses int. */
  predicate IsInt(v: Value) {
    v.PyBool? || v.PyInt?
  }

  function IntOf(v: Value): int
    requires IsInt(v)
  {
    if v.PyBool? then (if v.b then 1 else 0) else v.i
  }

  /** Python's `==` on these values: a bool compares equal to the int 0 or 1. */
  predicate Eq(a: Value, b: Value) {
    if IsInt(a) && IsInt(b) then IntOf(a) == IntOf(b) else a == b
  }

  lemma EqReflexive(a: Value)
    ensures Eq(a, a)
  {
  }

  /** `bool(v)`. */
  predicate Truthy(v: Value) {
    match v
    case PyNone => false
    case PyBool(b) => b
    case PyInt(i) => i != 0
    case PyStr(s) => s != ""
  }

  function DigitChar(d: nat): char
    requires d < 10
  {
    "0123456789"[d]
  }

  function NatToString(n: nat): string
    decreases n
  {
    if n < 10 then [DigitChar(n)] else NatToString(n / 10) + [DigitChar(n % 10)]
  }

  function IntToString(i: int): string {
    if i < 0 then "-" + NatToString(-i) else NatToString(i)
  }

  /** `str(v)`, which is also what `"%s" % v` and `"{}".format(v)` insert. */
  function Format(v: Value): string {
    match v
    case PyNone => "None"
    case PyBool(b) => if b then "True" else "False"
    case PyInt(i) => IntToString(i)
    case PyStr(s) => s
  }

  /** `sep.join(parts)`. */
  function Join(sep: string, parts: seq<string>): string
    decreases |parts|
  {
    if |parts| == 0 then ""
    else if |parts| == 1 then parts[0]
    else Join(sep, parts[..|parts| - 1]) + sep + parts[|parts| - 1]
  }

  lemma JoinAppend(sep: string, parts: seq<string>, last: string)
    requires parts != []
    ensures Join(sep, parts + [last]) == Join(sep, parts) + sep + last
  {
    assert (parts + [last])[..|parts|] == parts;
  }

  /** Joining after appending one more part: the old text, the separator
      and the part, or just the part when there was none before. */
  lemma JoinSnoc(sep: string, parts: seq<string>, last: string)
    ensures Join(sep, parts + [last]) == if parts == [] then last else Join(sep, parts) + sep + last
  {
    if parts != [] {
      JoinAppend(sep, parts, last);
    }
  }

  /** `"%s" % x` or `"{}".format(x)` of a str attribute that may still be None. */
  function FormatOption(o: Option<string>): string {
    if o.Some? then o.value else Format(PyNone)
  }

  /** `type(v).__name__`. */
  function TypeName(v: Value): string {
    match v
    case PyNone => "NoneType"
    case PyBool(_) => "bool"
    case PyInt(_) => "int"
    case PyStr(_) => "str"
  }

  /** The position of the first item from `i` on that is not a str, or
      `|items|` when there is none. */
  function FirstNonStr(items: seq<Value>, i: nat): (k: nat)
    requires i <= |items|
    ensures i <= k <= |items|
    ensures forall j :: i <= j < k ==> items[j].PyStr?
    ensures k < |items| ==> !items[k].PyStr?
    decreases |items| - i
  {
    if i == |items| then i
    else if !items[i].PyStr? then i
    else FirstNonStr(items, i + 1)
  }

  /** `sep.join(items)` over items of any type: the first item that is not a
      str raises TypeError, naming its position and its type. */
  function JoinItems(sep: string, items: seq<Value>): (r: Result<string>)
    ensures r.Ok? <==> forall i :: 0 <= i < |items| ==> items[i].PyStr?
    ensures r.Ok? ==> r.value == Join(sep, seq(|items|, i requires 0 <= i < |items| => items[i].s))
    ensures r.Err? ==> exists k ::
      0 <= k < |items| && !items[k].PyStr? && (forall j :: 0 <= j < k ==> items[j].PyStr?) &&
      r.error == TypeError("sequence item " + NatToString(k) + ": expected str instance, " + TypeName(items[k]) + " found")
  {
    var k := FirstNonStr(items, 0);
    if k < |items| then
      Err(TypeError("sequence item " + NatToString(k) + ": expected str instance, " + TypeName(items[k]) + " found"))
    else
      Ok(Join(sep, seq(|items|, i requires 0 <= i < |items| => items[i].s)))
  }

  /** `f` applied to each of `xs` in order, or else the error of the first
      application that fails: what `join` gets from a generator whose items
      may raise, since it consumes the generator from the front. */
  function MapResults<A, B>(f: A -> Result<B>, xs: seq<A>): Result<seq<B>>
    decreases |xs|
  {
    if xs == [] then Ok([])
    else
      match MapResults(f, xs[..|xs| - 1])
      case Err(e) => Err(e)
      case Ok(ys) =>
        match f(xs[|xs| - 1])
        case Err(e) => Err(e)
        case Ok(y) => Ok(ys + [y])
  }

  lemma {:induction false} MapResultsOk<A, B>(f: A -> Result<B>, xs: seq<A>)
    ensures MapResults(f, xs).Ok? <==> forall i :: 0 <= i < |xs| ==> f(xs[i]).Ok?
    ensures MapResults(f, xs).Ok? ==> |MapResults(f, xs).value| == |xs|
    ensures MapResults(f, xs).Ok? ==> forall i :: 0 <= i < |xs| ==> MapResults(f, xs).value[i] == f(xs[i]).value
    decreases |xs|
  {
    if xs != [] {
      var init := xs[..|xs| - 1];
      MapResultsOk(f, init);
      assert forall i :: 0 <= i < |init| ==> init[i] == xs[i];
    }
  }

  lemma {:induction false} MapResultsFirstError<A, B>(f: A -> Result<B>, xs: seq<A>)
    requires MapResults(f, xs).Err?
    ensures exists i ::
      0 <= i < |xs| && f(xs[i]) == Err(MapResults(f, xs).error) && forall j :: 0 <= j < i ==> f(xs[j]).Ok?
    decreases |xs|
  {
    var init := xs[..|xs| - 1];
    assert forall i :: 0 <= i < |init| ==> init[i] == xs[i];
    if MapResults(f, init).Err? {
      MapResultsFirstError(f, init);
    } else {
      MapResultsOk(f, init);
      assert f(xs[|xs| - 1]) == Err(MapResults(f, xs).error);
    }
  }

  /** One more item: its result follows the others'. */
  lemma MapResultsSnoc<A, B>(f: A -> Result<B>, xs: seq<A>, x: A)
    requires MapResults(f, xs).Ok? && f(x).Ok?
    ensures MapResults(f, xs + [x]) == Ok(MapResults(f, xs).value + [f(x).value])
  {
    assert (xs + [x])[..|xs|] == xs;
  }

  /** One more item, its result joined last. */
  lemma JoinResultsSnoc<A>(sep: string, f: A -> Result<string>, xs: seq<A>, x: A)
    requires MapResults(f, xs).Ok? && f(x).Ok?
    ensures MapResults(f, xs + [x]).Ok?
    ensures Join(sep, MapResults(f, xs + [x]).value) ==
      if xs == [] then f(x).value else Join(sep, MapResults(f, xs).value) + sep + f(x).value
  {
    MapResultsSnoc(f, xs, x);
    MapResultsOk(f, xs);
    JoinSnoc(sep, MapResults(f, xs).value, f(x).value);
  }

  function HexDigit(d: nat): char
    requires d < 16
  {
    "0123456789abcdef"[d]
  }

  /** The quote `repr` puts around a str: double quotes only when the text
      holds a single quote and no double quote. */
  function ReprQuote(s: string): char {
    if '\'' in s && '"' !in s then '"' else '\''
  }

  /** How `repr` writes one character inside the quotes `q`. */
  function ReprChar(c: char, q: char): string {
    if c == q || c == '\\' then ['\\', c]
    else if c == '\t' then "\\t"
    else if c == '\n' then "\\n"
    else if c == '\r' then "\\r"
    else if (c as int) < 32 || (c as int) == 127 then
      ['\\', 'x', HexDigit(c as int / 16), HexDigit(c as int % 16)]
    else [c]
  }

  function ReprBody(s: string, q: char): string
    decreases |s|
  {
    if s == [] then "" else ReprChar(s[0], q) + ReprBody(s[1..], q)
  }

  /** `repr(s)` of a str, as it appears inside the text of a dict. */
  function Repr(s: string): string {
    var q := ReprQuote(s);
    [q] + ReprBody(s, q) + [q]
  }

  /** A character that `repr` writes unchanged whatever the quote. */
  predicate PlainChar(c: char) {
    32 <= c as int < 127 && c != '\'' && c != '"' && c != '\\'
  }

  lemma {:induction false} ReprBodyOfPlain(s: string, q: char)
    requires forall i :: 0 <= i < |s| ==> PlainChar(s[i])
    requires q == '\'' || q == '"'
    ensures ReprBody(s, q) == s
  {
    if s != [] {
      ReprBodyOfPlain(s[1..], q);
    }
  }

  lemma ConcatAssoc<T>(a: seq<T>, b: seq<T>, c: seq<T>)
    ensures a + (b + c) == (a + b) + c
  {
  }

  predicate AllPlain(s: string) {
    forall i :: 0 <= i < |s| ==> PlainChar(s[i])
  }

  lemma AllPlainConcat(a: string, b: string)
    requires AllPlain(a) && AllPlain(b)
    ensures AllPlain(a + b)
  {
    forall i | 0 <= i < |a + b| ensures PlainChar((a + b)[i]) {
      if i >= |a| {
        assert (a + b)[i] == b[i - |a|];
      }
    }
  }

  /** Joining plain parts with a plain separator gives plain text. */
  lemma {:induction false} JoinPlain(sep: string, parts: seq<string>)
    requires AllPlain(sep) && forall i :: 0 <= i < |parts| ==> AllPlain(parts[i])
    ensures AllPlain(Join(sep, parts))
    decreases |parts|
  {
    if |parts| > 1 {
      JoinPlain(sep, parts[..|parts| - 1]);
      AllPlainConcat(Join(sep, parts[..|parts| - 1]), sep);
      AllPlainConcat(Join(sep, parts[..|parts| - 1]) + sep, parts[|parts| - 1]);
    }
  }

  lemma {:induction false} ReprBodyLength(s: string, q: char)
    ensures |ReprBody(s, q)| >= |s|
    decreases |s|
  {
    if s != [] {
      ReprBodyLength(s[1..], q);
    }
  }

  /** `repr` of a str is longer than the str: it adds the quotes at least. */
  lemma ReprLength(s: string)
    ensures |Repr(s)| >= |s| + 2
  {
    ReprBodyLength(s, ReprQuote(s));
  }

  /** Text without quotes, backslashes or control characters comes out of
      `repr` as itself between single quotes. */
  lemma ReprOfPlain(s: string)
    requires AllPlain(s)
    ensures Repr(s) == "'" + s + "'"
  {
    assert forall i :: 0 <= i < |s| ==> s[i] != '\'';
    ReprBodyOfPlain(s, '\'');
  }
}
