/**
 * The Python surface the import pipeline works on: decoded JSON values,
 * the exceptions the code raises or catches, and the few built-ins it
 * applies to raw records (truthiness, dict.get, subscripting, int(),
 * str.strip).
 */
module PyJson {
  import opened Wrappers

  /** A value decoded from the geography API's JSON (floats are not modelled). */
  datatype Json =
    | JNull
    | JBool(b: bool)
    | JInt(n: int)
    | JStr(s: string)
    | JList(items: seq<Json>)
    | JObj(fields: map<string, Json>)

  /** The `ValidationError` messages of the two record validators. */
  datatype Missing =
    | MunicipioSemId
    | MunicipioSemNome
    | DistritoSemId
    | DistritoSemNome

  /**
   * Exceptions. `DatabaseError` stands for every rejection by the store
   * (duplicate primary key, NOT NULL column given None, key outside the
   * column's integer range).
   */
  datatype PyError =
    | ValidationError(missing: Missing)
    | KeyError
    | TypeError
    | AttributeError
    | ValueError
    | DatabaseError

  /** Python truthiness of a decoded JSON value. */
  predicate Truthy(j: Json)
  {
    match j
    case JNull => false
    case JBool(b) => b
    case JInt(n) => n != 0
    case JStr(s) => s != ""
    case JList(xs) => xs != []
    case JObj(m) => m != map[]
  }

  /** `j.get(k)`: None when the key is absent, AttributeError on a non-dict. */
  function Get(j: Json, k: string): Result<Json, PyError>
  {
    match j
    case JObj(m) => Ok(if k in m then m[k] else JNull)
    case _ => Err(AttributeError)
  }

  /** `j[k]` with a string key: KeyError on a dict without it, TypeError on anything else. */
  function Index(j: Json, k: string): Result<Json, PyError>
  {
    match j
    case JObj(m) => if k in m then Ok(m[k]) else Err(KeyError)
    case _ => Err(TypeError)
  }

  /** The value under `k` when `j` is a dict holding it, JSON null otherwise (a path step). */
  function At(j: Json, k: string): Json
  {
    if j.JObj? && k in j.fields then j.fields[k] else JNull
  }

  /**
   * The JSON types the API gives the leaves the pipeline reads: ids are
   * integers, names and short codes are strings.
   */
  predicate LeafTypes(j: Json)
  {
    j.JObj? ==>
      && ("id" in j.fields ==> j.fields["id"].JInt?)
      && ("nome" in j.fields ==> j.fields["nome"].JStr?)
      && ("sigla" in j.fields ==> j.fields["sigla"].JStr?)
  }

  predicate IsDigit(c: char)
  {
    '0' <= c <= '9'
  }

  predicate AllDigits(s: string)
  {
    forall i :: 0 <= i < |s| ==> IsDigit(s[i])
  }

  /** The digits of a decimal literal once an optional leading sign is dropped. */
  function Unsigned(s: string): string
  {
    if |s| > 0 && (s[0] == '-' || s[0] == '+') then s[1..] else s
  }

  /** An optional sign followed by at least one ASCII digit. */
  predicate IsDecimal(s: string)
  {
    |Unsigned(s)| > 0 && AllDigits(Unsigned(s))
  }

  function DigitsValue(s: string): nat
    requires AllDigits(s)
  {
    if s == [] then 0
    else
      var d := (s[|s| - 1] as int) - ('0' as int);
      DigitsValue(s[..|s| - 1]) * 10 + d
  }

  function DecimalValue(s: string): int
    requires IsDecimal(s)
  {
    if s[0] == '-' then -(DigitsValue(Unsigned(s)) as int) else DigitsValue(Unsigned(s))
  }

  /** Python `int(j)` on a decoded JSON value; a string may carry whitespace around its digits. */
  function PyInt(j: Json): Result<int, PyError>
  {
    match j
    case JInt(n) => Ok(n)
    case JBool(b) => Ok(if b then 1 else 0)
    case JStr(s) => if IsDecimal(Strip(s)) then Ok(DecimalValue(Strip(s))) else Err(ValueError)
    case _ => Err(TypeError)
  }

  /**
   * The int a value stands for as a set member or dict key (`True == 1`,
   * and a string never equals an int); lists and dicts are unhashable.
   */
  function IntKey(j: Json): Result<Option<int>, PyError>
  {
    match j
    case JInt(n) => Ok(Some(n))
    case JBool(b) => Ok(Some(if b then 1 else 0))
    case JList(_) => Err(TypeError)
    case JObj(_) => Err(TypeError)
    case _ => Ok(None)
  }

  /**
   * The characters Python's `str.isspace` accepts, which `str.strip()` with
   * no argument removes: the ASCII controls 0x09-0x0D and 0x1C-0x1F, the
   * space, and the Unicode separators and spaces.
   */
  predicate IsSpace(c: char)
  {
    || '\t' <= c <= '\r'
    || '\U{001C}' <= c <= ' '
    || c == '\U{0085}' || c == '\U{00A0}' || c == '\U{1680}'
    || '\U{2000}' <= c <= '\U{200A}'
    || c == '\U{2028}' || c == '\U{2029}' || c == '\U{202F}' || c == '\U{205F}' || c == '\U{3000}'
  }

  /** The number of whitespace characters `lstrip` drops: the longest all-whitespace prefix. */
  function LeadingSpaces(s: string): (n: nat)
    ensures n <= |s|
    ensures forall i | 0 <= i < n :: IsSpace(s[i])
    ensures n < |s| ==> !IsSpace(s[n])
    decreases |s|
  {
    if s != [] && IsSpace(s[0]) then
      var m := LeadingSpaces(s[1..]);
      assert forall i | 1 <= i < 1 + m :: s[i] == s[1..][i - 1];
      1 + m
    else 0
  }

  /** Where the whitespace `rstrip` drops begins: the longest all-whitespace suffix starts here. */
  function TrailingStart(s: string): (n: nat)
    ensures n <= |s|
    ensures forall i | n <= i < |s| :: IsSpace(s[i])
    ensures 0 < n ==> !IsSpace(s[n - 1])
    decreases |s|
  {
    if s != [] && IsSpace(s[|s| - 1]) then
      var m := TrailingStart(s[..|s| - 1]);
      assert forall i | m <= i < |s| - 1 :: s[i] == s[..|s| - 1][i];
      m
    else |s|
  }

  /** `s.lstrip()`. */
  function StripLeft(s: string): string
  {
    s[LeadingSpaces(s)..]
  }

  /** `s.rstrip()`. */
  function StripRight(s: string): string
  {
    s[..TrailingStart(s)]
  }

  /** `s.strip()`. */
  function Strip(s: string): string
  {
    StripRight(StripLeft(s))
  }

  /** Where the result of `strip` starts and ends in its input. */
  lemma {:induction false} StripBounds(s: string) returns (i: int, j: int)
    ensures 0 <= i <= j <= |s| && Strip(s) == s[i..j]
    ensures forall k | 0 <= k < i :: IsSpace(s[k])
    ensures forall k | j <= k < |s| :: IsSpace(s[k])
    ensures i < j ==> !IsSpace(s[i]) && !IsSpace(s[j - 1])
  {
    var l := StripLeft(s);
    i := LeadingSpaces(s);
    var t := TrailingStart(l);
    j := i + t;
    assert l[..t] == s[i..j];
    forall k | j <= k < |s| ensures IsSpace(s[k]) {
      assert s[k] == l[k - i];
    }
    if i < j {
      assert s[i] == l[0];
      assert s[j - 1] == l[t - 1];
    }
  }

  /** `strip` keeps a contiguous slice of its input and removes only whitespace, at both ends. */
  lemma {:induction false} StripSlice(s: string)
    ensures exists i, j :: 0 <= i <= j <= |s| && Strip(s) == s[i..j]
              && (forall k | 0 <= k < i :: IsSpace(s[k]))
              && (forall k | j <= k < |s| :: IsSpace(s[k]))
  {
    var i, j := StripBounds(s);
  }

  /** The result of `strip` neither starts nor ends with whitespace. */
  lemma {:induction false} StripEnds(s: string)
    ensures Strip(s) == [] || (!IsSpace(Strip(s)[0]) && !IsSpace(Strip(s)[|Strip(s)| - 1]))
  {
    var i, j := StripBounds(s);
  }

  /** Stripping a stripped string changes nothing. */
  lemma {:induction false} StripTwice(s: string)
    ensures Strip(Strip(s)) == Strip(s)
  {
    StripEnds(s);
    var r := Strip(s);
    assert LeadingSpaces(r) == 0;
    assert StripLeft(r) == r;
    assert TrailingStart(r) == |r|;
  }
}
