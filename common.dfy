/** Shared vocabulary of the storefront model: optional values, the JSON-like
    values stored in documents, HTTP responses, and the JavaScript string
    operations the handlers and pages rely on (prefix tests, substring search,
    ASCII case mapping, whitespace trimming and decimal rendering). */
module Common {

  datatype Option<+T> = None | Some(value: T)

  /** A stored or decoded JSON value. `Time` is a `Date`, in milliseconds since
      the epoch; `Null` is what the database driver stores for `undefined`. */
  datatype Value = Str(s: string) | Num(n: int) | Bool(b: bool) | Null | Time(ms: int)

  /** A JSON object: the fields of a record or of a token payload. */
  type Record = map<string, Value>

  /** Reading a property: `undefined` is `None`. */
  function Field(r: Record, key: string): (v: Option<Value>)
    ensures v.Some? <==> key in r
  {
    if key in r then Some(r[key]) else None
  }

  /** The value a property contributes to a query, an inserted document or a
      `$set`: `undefined` becomes `null`. */
  function Stored(v: Option<Value>): (w: Value)
    ensures v.Some? ==> w == v.value
    ensures v.None? ==> w == Null
  {
    if v.Some? then v.value else Null
  }

  /** A stored document: its `_id` and its other fields. */
  datatype Doc = Doc(id: string, fields: Record)

  /** `const { password, ...rest } = doc`: the document without its password
      field, every other field kept as stored. */
  function WithoutPassword(d: Doc): (r: Doc)
    ensures r.id == d.id
    ensures "password" !in r.fields
    ensures r.fields.Keys == d.fields.Keys - {"password"}
    ensures forall k :: k in r.fields ==> r.fields[k] == d.fields[k]
  {
    Doc(d.id, d.fields - {"password"})
  }

  /** The index of the first document whose `key` field holds `v`
      (`findOne({ key: v })`). */
  function FindFirst(docs: seq<Doc>, key: string, v: Value): (r: Option<nat>)
    ensures r.Some? ==> r.value < |docs| && Field(docs[r.value].fields, key) == Some(v)
    ensures r.Some? ==> forall j :: 0 <= j < r.value ==> Field(docs[j].fields, key) != Some(v)
    ensures r.None? ==> forall j :: 0 <= j < |docs| ==> Field(docs[j].fields, key) != Some(v)
    decreases |docs|
  {
    if docs == [] then None
    else if Field(docs[0].fields, key) == Some(v) then Some(0)
    else match FindFirst(docs[1..], key, v)
      case None => None
      case Some(i) => Some(i + 1)
  }

  /** The index of the first document with the given `_id`. */
  function FindById(docs: seq<Doc>, id: string): (r: Option<nat>)
    ensures r.Some? ==> r.value < |docs| && docs[r.value].id == id
    ensures r.Some? ==> forall j :: 0 <= j < r.value ==> docs[j].id != id
    ensures r.None? ==> forall j :: 0 <= j < |docs| ==> docs[j].id != id
    decreases |docs|
  {
    if docs == [] then None
    else if docs[0].id == id then Some(0)
    else match FindById(docs[1..], id)
      case None => None
      case Some(i) => Some(i + 1)
  }

  /** An HTTP response: its status code and its JSON body. */
  datatype Response<+B> = Response(status: int, body: B)

  // ---------------------------------------------------------------------
  // Prefixes and substrings (`startsWith`, `includes`)
  // ---------------------------------------------------------------------

  predicate StartsWith(s: string, prefix: string)
  {
    |prefix| <= |s| && s[..|prefix|] == prefix
  }

  /** `s.includes(t)`: t occurs somewhere in s as a contiguous block. */
  predicate Includes(s: string, t: string)
    decreases |s|
  {
    StartsWith(s, t) || (|s| > 0 && Includes(s[1..], t))
  }

  /** t occurs in s starting at index i. */
  predicate OccursAt(s: string, t: string, i: int)
  {
    0 <= i <= |s| - |t| && s[i..i + |t|] == t
  }

  /** The recursive search finds exactly the occurrences a quantifier names. */
  lemma {:induction false} IncludesIff(s: string, t: string)
    ensures Includes(s, t) <==> exists i :: OccursAt(s, t, i)
    decreases |s|
  {
    if StartsWith(s, t) {
      assert OccursAt(s, t, 0);
    } else if |s| == 0 {
    } else {
      IncludesIff(s[1..], t);
      if Includes(s[1..], t) {
        var i :| OccursAt(s[1..], t, i);
        assert s[i + 1..i + 1 + |t|] == s[1..][i..i + |t|];
        assert OccursAt(s, t, i + 1);
      }
      if exists i :: OccursAt(s, t, i) {
        var i :| OccursAt(s, t, i);
        assert i != 0 by { assert s[..|t|] == s[0..|t|]; }
        assert s[1..][i - 1..i - 1 + |t|] == s[i..i + |t|];
        assert OccursAt(s[1..], t, i - 1);
      }
    }
  }

  /** Every string includes the empty string. */
  lemma IncludesEmpty(s: string)
    ensures Includes(s, "")
  {
  }

  // ---------------------------------------------------------------------
  // ASCII case mapping (`toLowerCase`, `toUpperCase` on ASCII text)
  // ---------------------------------------------------------------------

  predicate IsUpper(c: char) { 'A' <= c <= 'Z' }
  predicate IsLower(c: char) { 'a' <= c <= 'z' }
  predicate IsDigit(c: char) { '0' <= c <= '9' }

  function LowerChar(c: char): (d: char)
    ensures !IsUpper(d)
    ensures !IsUpper(c) ==> d == c
  {
    if IsUpper(c) then (c as int + 32) as char else c
  }

  function UpperChar(c: char): (d: char)
    ensures !IsLower(d)
    ensures !IsLower(c) ==> d == c
  {
    if IsLower(c) then (c as int - 32) as char else c
  }

  function ToLower(s: string): (r: string)
    ensures |r| == |s|
    ensures forall i :: 0 <= i < |s| ==> r[i] == LowerChar(s[i])
  {
    seq(|s|, i requires 0 <= i < |s| => LowerChar(s[i]))
  }

  function ToUpper(s: string): (r: string)
    ensures |r| == |s|
    ensures forall i :: 0 <= i < |s| ==> r[i] == UpperChar(s[i])
  {
    seq(|s|, i requires 0 <= i < |s| => UpperChar(s[i]))
  }

  /** Lower-casing forgets the case the text was written in. */
  lemma LowerIgnoresCase(s: string)
    ensures ToLower(ToUpper(s)) == ToLower(s)
    ensures ToLower(ToLower(s)) == ToLower(s)
  {
  }

  // ---------------------------------------------------------------------
  // Whitespace trimming (`trim`)
  // ---------------------------------------------------------------------

  /** The characters `String.prototype.trim` removes: the ECMAScript
      WhiteSpace and LineTerminator characters. */
  predicate IsJsSpace(c: char)
  {
    var n := c as int;
    n == 0x09 || n == 0x0A || n == 0x0B || n == 0x0C || n == 0x0D || n == 0x20
    || n == 0xA0 || n == 0x1680 || (0x2000 <= n <= 0x200A) || n == 0x2028 || n == 0x2029
    || n == 0x202F || n == 0x205F || n == 0x3000 || n == 0xFEFF
  }

  predicate AllSpace(s: string)
  {
    forall i :: 0 <= i < |s| ==> IsJsSpace(s[i])
  }

  function TrimStart(s: string): (r: string)
    ensures |r| <= |s| && r == s[|s| - |r|..]
    ensures r == [] || !IsJsSpace(r[0])
    ensures AllSpace(s[..|s| - |r|])
    decreases |s|
  {
    if |s| > 0 && IsJsSpace(s[0]) then
      var r := TrimStart(s[1..]);
      assert s[..|s| - |r|] == [s[0]] + s[1..][..|s[1..]| - |r|];
      r
    else s
  }

  function TrimEnd(s: string): (r: string)
    ensures |r| <= |s| && r == s[..|r|]
    ensures r == [] || !IsJsSpace(r[|r| - 1])
    ensures AllSpace(s[|r|..])
    decreases |s|
  {
    if |s| > 0 && IsJsSpace(s[|s| - 1]) then
      var r := TrimEnd(s[..|s| - 1]);
      assert s[|r|..] == s[..|s| - 1][|r|..] + [s[|s| - 1]];
      r
    else s
  }

  /** `s.trim()`: s without its leading and trailing whitespace. */
  function Trim(s: string): (r: string)
    ensures |r| <= |s|
    ensures r == [] || (!IsJsSpace(r[0]) && !IsJsSpace(r[|r| - 1]))
  {
    TrimEnd(TrimStart(s))
  }

  /** `trim()` only removes characters at the ends: the result is the slice
      of s that starts after the leading whitespace. */
  lemma TrimIsSlice(s: string)
    ensures var k := |s| - |TrimStart(s)|;
      k + |Trim(s)| <= |s| && Trim(s) == s[k..k + |Trim(s)|]
  {
    var front := TrimStart(s);
    var k := |s| - |front|;
    assert front == s[k..];
    assert Trim(s) == front[..|Trim(s)|];
  }


  lemma AllSpaceConcat(a: string, b: string)
    requires AllSpace(a) && AllSpace(b)
    ensures AllSpace(a + b)
  {
    forall i | 0 <= i < |a + b| ensures IsJsSpace((a + b)[i]) {
      if i < |a| { assert (a + b)[i] == a[i]; } else { assert (a + b)[i] == b[i - |a|]; }
    }
  }

  lemma {:induction false} TrimStartAllSpace(s: string)
    requires AllSpace(s)
    ensures TrimStart(s) == []
    decreases |s|
  {
    if s != [] {
      assert AllSpace(s[1..]) by {
        forall i | 0 <= i < |s[1..]| ensures IsJsSpace(s[1..][i]) { assert s[1..][i] == s[i + 1]; }
      }
      TrimStartAllSpace(s[1..]);
    }
  }

  /** Trimming leaves nothing exactly when the text is all whitespace. */
  lemma TrimEmptyIff(s: string)
    ensures Trim(s) == [] <==> AllSpace(s)
  {
    var t := TrimStart(s);
    if AllSpace(s) {
      TrimStartAllSpace(s);
    }
    if Trim(s) == [] {
      assert t[0..] == t;
      assert s == s[..|s| - |t|] + t;
      AllSpaceConcat(s[..|s| - |t|], t);
    }
  }

  lemma {:induction false} TrimStartPadding(pad: string, s: string)
    requires AllSpace(pad)
    ensures TrimStart(pad + s) == TrimStart(s)
    decreases |pad|
  {
    if pad != [] {
      assert (pad + s)[1..] == pad[1..] + s;
      assert AllSpace(pad[1..]) by {
        forall i | 0 <= i < |pad[1..]| ensures IsJsSpace(pad[1..][i]) { assert pad[1..][i] == pad[i + 1]; }
      }
      TrimStartPadding(pad[1..], s);
    } else {
      assert pad + s == s;
    }
  }

  lemma {:induction false} TrimEndPadding(s: string, pad: string)
    requires AllSpace(pad)
    ensures TrimEnd(s + pad) == TrimEnd(s)
    decreases |pad|
  {
    if pad != [] {
      var shorter := pad[..|pad| - 1];
      assert (s + pad)[..|s + pad| - 1] == s + shorter;
      assert AllSpace(shorter) by {
        forall i | 0 <= i < |shorter| ensures IsJsSpace(shorter[i]) { assert shorter[i] == pad[i]; }
      }
      TrimEndPadding(s, shorter);
    } else {
      assert s + pad == s;
    }
  }

  /** TrimStart passes trailing text through, unless everything before it was
      whitespace too. */
  lemma {:induction false} TrimStartAppend(s: string, pad: string)
    requires !AllSpace(s)
    ensures TrimStart(s + pad) == TrimStart(s) + pad
    decreases |s|
  {
    if IsJsSpace(s[0]) {
      assert !AllSpace(s[1..]) by {
        var i :| 0 <= i < |s| && !IsJsSpace(s[i]);
        assert s[1..][i - 1] == s[i];
      }
      assert (s + pad)[1..] == s[1..] + pad;
      TrimStartAppend(s[1..], pad);
    }
  }

  /** Whitespace around the text does not survive `trim`. */
  lemma TrimPadding(before: string, s: string, after: string)
    requires AllSpace(before) && AllSpace(after)
    ensures Trim(before + s + after) == Trim(s)
  {
    assert before + s + after == before + (s + after);
    TrimStartPadding(before, s + after);
    if AllSpace(s) {
      AllSpaceConcat(s, after);
      TrimStartAllSpace(s + after);
      TrimStartAllSpace(s);
    } else {
      TrimStartAppend(s, after);
      TrimEndPadding(TrimStart(s), after);
    }
  }

  // ---------------------------------------------------------------------
  // Decimal rendering of natural numbers (template `${n}`)
  // ---------------------------------------------------------------------

  function DigitChar(d: nat): (c: char)
    requires d < 10
    ensures IsDigit(c)
  {
    ('0' as int + d) as char
  }

  function DigitValue(c: char): (d: nat)
    requires IsDigit(c)
    ensures d < 10 && DigitChar(d) == c
  {
    c as int - '0' as int
  }

  /** `${n}` for a natural number n: its shortest decimal text. */
  function DecimalText(n: nat): (s: string)
    ensures |s| >= 1
    ensures forall i :: 0 <= i < |s| ==> IsDigit(s[i])
    ensures s[0] == '0' ==> n == 0
    decreases n
  {
    if n < 10 then [DigitChar(n)] else DecimalText(n / 10) + [DigitChar(n % 10)]
  }

  /** Reads a string of decimal digits back as a number. */
  function ParseDecimal(s: string): (n: nat)
    requires forall i :: 0 <= i < |s| ==> IsDigit(s[i])
    decreases |s|
  {
    if s == [] then 0 else 10 * ParseDecimal(s[..|s| - 1]) + DigitValue(s[|s| - 1])
  }

  lemma {:induction false} DecimalRoundTrip(n: nat)
    ensures ParseDecimal(DecimalText(n)) == n
    decreases n
  {
    if n >= 10 {
      var s := DecimalText(n);
      assert s[..|s| - 1] == DecimalText(n / 10);
      DecimalRoundTrip(n / 10);
    }
  }

  /** Distinct numbers render as distinct text. */
  lemma DecimalInjective(m: nat, n: nat)
    requires DecimalText(m) == DecimalText(n)
    ensures m == n
  {
    DecimalRoundTrip(m);
    DecimalRoundTrip(n);
  }
}
