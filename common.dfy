/**
 * Values and string operations shared by the TypeScript back end and the
 * Vue front end: JavaScript's `undefined`/`null`, `String.prototype.trim`,
 * ASCII case mapping, `split` and `Array.prototype.join`.
 */
module Common {

  /** `T | undefined` (or `T | null` where the source never has both). */
  datatype Option<T> = None | Some(value: T)

  /** A value, or the message of the `Error` the source throws. */
  datatype Result<T> = Ok(value: T) | Err(message: string)

  /** A JSON body field that may be missing, explicitly `null`, or a string. */
  datatype Field = Omitted | Null | Given(s: string)

  /** JavaScript truthiness of an optional string: present and non-empty. */
  predicate Truthy(o: Option<string>) {
    o.Some? && o.value != ""
  }

  /** JavaScript truthiness of a JSON field. */
  predicate FieldTruthy(f: Field) {
    f.Given? && f.s != ""
  }

  /** `String(v)` for a JSON field that is present. */
  function FieldString(f: Field): string
    requires !f.Omitted?
  {
    if f.Null? then "null" else f.s
  }

  /** `v ? String(v) : null` for a present field. */
  function FieldOrNull(f: Field): (r: Option<string>)
    ensures r.Some? <==> FieldTruthy(f)
    ensures r.Some? ==> r.value == f.s
  {
    if FieldTruthy(f) then Some(f.s) else None
  }

  // ---------------------------------------------------------------------
  // String.prototype.trim

  /** The ECMAScript WhiteSpace and LineTerminator code points. */
  predicate IsSpace(c: char) {
    c == '\t' || c == '\n' || c == '\U{000B}' || c == '\U{000C}' || c == '\r' ||
    c == ' ' || c == '\U{00A0}' || c == '\U{1680}' ||
    ('\U{2000}' <= c <= '\U{200A}') ||
    c == '\U{2028}' || c == '\U{2029}' || c == '\U{202F}' || c == '\U{205F}' ||
    c == '\U{3000}' || c == '\U{FEFF}'
  }

  predicate AllSpace(s: string) {
    forall i | 0 <= i < |s| :: IsSpace(s[i])
  }

  function TrimStart(s: string): (r: string)
    ensures |r| <= |s| && r == s[|s| - |r|..]
    ensures r == [] || !IsSpace(r[0])
    ensures AllSpace(s[..|s| - |r|])
  {
    if |s| > 0 && IsSpace(s[0]) then
      var r := TrimStart(s[1..]);
      assert s[..|s| - |r|] == [s[0]] + s[1..][..|s| - 1 - |r|];
      r
    else s
  }

  function TrimEnd(s: string): (r: string)
    ensures |r| <= |s| && r == s[..|r|]
    ensures r == [] || !IsSpace(r[|r| - 1])
    ensures AllSpace(s[|r|..])
  {
    if |s| > 0 && IsSpace(s[|s| - 1]) then
      var r := TrimEnd(s[..|s| - 1]);
      assert s[|r|..] == s[..|s| - 1][|r|..] + [s[|s| - 1]];
      r
    else s
  }

  /** `s.trim()`. */
  function Trim(s: string): string {
    TrimEnd(TrimStart(s))
  }

  /** A trimmed string neither starts nor ends with white space. */
  predicate IsTrimmed(s: string) {
    s == [] || (!IsSpace(s[0]) && !IsSpace(s[|s| - 1]))
  }

  /** `trim` removes exactly a white-space prefix and a white-space suffix. */
  lemma TrimShape(s: string)
    ensures IsTrimmed(Trim(s))
    ensures exists i, j :: 0 <= i <= j <= |s| && Trim(s) == s[i..j] && AllSpace(s[..i]) && AllSpace(s[j..])
  {
    var a := TrimStart(s);
    var i := |s| - |a|;
    var b := TrimEnd(a);
    assert b == s[i..i + |b|];
    assert AllSpace(s[i + |b|..]) by {
      assert s[i + |b|..] == a[|b|..];
    }
    if b != [] {
      assert b[0] == a[0];
    }
  }

  /** A string trims to "" exactly when it is all white space. */
  lemma TrimEmptyIffAllSpace(s: string)
    ensures Trim(s) == [] <==> AllSpace(s)
  {
    var a := TrimStart(s);
    var b := TrimEnd(a);
    assert s == s[..|s| - |a|] + a;
    if b == [] {
      assert a[|b|..] == a;
      AllSpaceConcat(s[..|s| - |a|], a);
    } else {
      assert b[0] == a[0] == s[|s| - |a|];
    }
  }

  lemma TrimOfTrimmed(s: string)
    requires IsTrimmed(s)
    ensures Trim(s) == s
  {
  }

  /** `trim` is idempotent. */
  lemma TrimIdempotent(s: string)
    ensures Trim(Trim(s)) == Trim(s)
  {
    TrimShape(s);
    TrimOfTrimmed(Trim(s));
  }

  /** A non-empty trimmed string is not all white space. */
  lemma TrimmedNonEmptyHasNonSpace(s: string)
    requires IsTrimmed(s) && s != []
    ensures !AllSpace(s)
  {
    assert !IsSpace(s[0]);
  }

  lemma AllSpaceConcat(a: string, b: string)
    ensures AllSpace(a + b) <==> AllSpace(a) && AllSpace(b)
  {
    if AllSpace(a + b) {
      forall i | 0 <= i < |a| ensures IsSpace(a[i]) { assert (a + b)[i] == a[i]; }
      forall i | 0 <= i < |b| ensures IsSpace(b[i]) { assert (a + b)[|a| + i] == b[i]; }
    }
  }

  // ---------------------------------------------------------------------
  // Case mapping (ASCII letters only)

  function ToLowerChar(c: char): char {
    if 'A' <= c <= 'Z' then (c as int + 32) as char else c
  }

  function ToUpperChar(c: char): char {
    if 'a' <= c <= 'z' then (c as int - 32) as char else c
  }

  /** `s.toLowerCase()`, restricted to ASCII letters. */
  function ToLower(s: string): (r: string)
    ensures |r| == |s|
    ensures forall i | 0 <= i < |s| :: r[i] == ToLowerChar(s[i])
  {
    if s == [] then [] else [ToLowerChar(s[0])] + ToLower(s[1..])
  }

  lemma ToLowerConcat(a: string, b: string)
    ensures ToLower(a + b) == ToLower(a) + ToLower(b)
  {
    assert forall i | 0 <= i < |a + b| :: ToLower(a + b)[i] == (ToLower(a) + ToLower(b))[i];
  }

  lemma ToLowerIdempotent(s: string)
    ensures ToLower(ToLower(s)) == ToLower(s)
  {
    assert forall i | 0 <= i < |s| :: ToLower(ToLower(s))[i] == ToLower(s)[i];
  }

  /** Lower-casing maps white space to itself and nothing else to white space. */
  lemma LowerCharSpace(c: char)
    ensures IsSpace(ToLowerChar(c)) <==> IsSpace(c)
    ensures IsSpace(c) ==> ToLowerChar(c) == c
  {
  }

  /** Lower-casing leaves white space alone, so it commutes with `trim`. */
  lemma {:induction false} TrimStartToLower(s: string)
    ensures TrimStart(ToLower(s)) == ToLower(TrimStart(s))
  {
    if |s| > 0 {
      if IsSpace(s[0]) {
        LowerSpaceStep(s);
        TrimStartToLower(s[1..]);
      } else {
        LowerNonSpaceStop(s);
      }
    }
  }

  lemma LowerSpaceStep(s: string)
    requires |s| > 0 && IsSpace(s[0])
    ensures TrimStart(ToLower(s)) == TrimStart(ToLower(s[1..]))
  {
    var l := ToLower(s);
    LowerCharSpace(s[0]);
    assert IsSpace(l[0]);
    assert l[1..] == ToLower(s[1..]);
  }

  lemma LowerNonSpaceStop(s: string)
    requires |s| > 0 && !IsSpace(s[0])
    ensures TrimStart(ToLower(s)) == ToLower(s)
  {
    LowerCharSpace(s[0]);
    assert !IsSpace(ToLower(s)[0]);
  }

  lemma {:induction false} TrimEndToLower(s: string)
    ensures TrimEnd(ToLower(s)) == ToLower(TrimEnd(s))
  {
    if |s| > 0 {
      if IsSpace(s[|s| - 1]) {
        LowerSpaceStepEnd(s);
        TrimEndToLower(s[..|s| - 1]);
      } else {
        LowerNonSpaceStopEnd(s);
      }
    }
  }

  lemma LowerSpaceStepEnd(s: string)
    requires |s| > 0 && IsSpace(s[|s| - 1])
    ensures TrimEnd(ToLower(s)) == TrimEnd(ToLower(s[..|s| - 1]))
  {
    var l := ToLower(s);
    LowerCharSpace(s[|s| - 1]);
    assert IsSpace(l[|s| - 1]);
    assert l[..|s| - 1] == ToLower(s[..|s| - 1]);
  }

  lemma LowerNonSpaceStopEnd(s: string)
    requires |s| > 0 && !IsSpace(s[|s| - 1])
    ensures TrimEnd(ToLower(s)) == ToLower(s)
  {
    LowerCharSpace(s[|s| - 1]);
    assert !IsSpace(ToLower(s)[|s| - 1]);
  }

  lemma TrimToLower(s: string)
    ensures Trim(ToLower(s)) == ToLower(Trim(s))
  {
    TrimStartToLower(s);
    TrimEndToLower(TrimStart(s));
  }

  lemma {:induction false} TrimStartSpacePrefix(w: string, s: string)
    requires AllSpace(w)
    ensures TrimStart(w + s) == TrimStart(s)
  {
    if w != [] {
      assert (w + s)[1..] == w[1..] + s;
      TrimStartSpacePrefix(w[1..], s);
    } else {
      assert w + s == s;
    }
  }

  lemma {:induction false} TrimEndSpaceSuffix(s: string, w: string)
    requires AllSpace(w)
    ensures TrimEnd(s + w) == TrimEnd(s)
  {
    if w != [] {
      assert (s + w)[..|s + w| - 1] == s + w[..|w| - 1];
      TrimEndSpaceSuffix(s, w[..|w| - 1]);
    } else {
      assert s + w == s;
    }
  }

  lemma {:induction false} TrimEndSpacePrefix(w: string, s: string)
    requires AllSpace(w) && !AllSpace(s)
    ensures TrimEnd(w + s) == w + TrimEnd(s)
  {
    if |s| > 0 && IsSpace(s[|s| - 1]) {
      assert (w + s)[..|w + s| - 1] == w + s[..|s| - 1];
      assert !AllSpace(s[..|s| - 1]) by {
        var k :| 0 <= k < |s| && !IsSpace(s[k]);
        assert k < |s| - 1 && s[..|s| - 1][k] == s[k];
      }
      TrimEndSpacePrefix(w, s[..|s| - 1]);
    } else {
      assert s != [];
    }
  }

  /** Surrounding white space does not change the result of `trim`. */
  lemma TrimSurrounding(w1: string, s: string, w2: string)
    requires AllSpace(w1) && AllSpace(w2)
    ensures Trim(w1 + s + w2) == Trim(s)
  {
    var t := w1 + s + w2;
    assert t == w1 + (s + w2);
    TrimStartSpacePrefix(w1, s + w2);
    var a := TrimStart(s + w2);
    TrimStartShapeOfConcat(s, w2);
    if AllSpace(s) {
      AllSpaceConcat(s, w2);
      TrimEmptyIffAllSpace(s + w2);
      TrimEmptyIffAllSpace(s);
      assert Trim(s + w2) == [];
    } else {
      // TrimStart(s + w2) == TrimStart(s) + w2
      TrimEndSpaceSuffix(TrimStart(s), w2);
    }
  }

  lemma {:induction false} TrimStartShapeOfConcat(s: string, w: string)
    requires AllSpace(w)
    ensures !AllSpace(s) ==> TrimStart(s + w) == TrimStart(s) + w
  {
    if !AllSpace(s) {
      assert s != [];
      if IsSpace(s[0]) {
        assert (s + w)[1..] == s[1..] + w;
        assert !AllSpace(s[1..]) by {
          var k :| 0 <= k < |s| && !IsSpace(s[k]);
          assert k > 0 && s[1..][k - 1] == s[k];
        }
        TrimStartShapeOfConcat(s[1..], w);
      }
    }
  }

  // ---------------------------------------------------------------------
  // split and join

  /** `s.split(sep)` for a one-character separator. */
  function Split(s: string, sep: char): (r: seq<string>)
    ensures |r| >= 1
  {
    if s == [] then [""]
    else if s[0] == sep then [""] + Split(s[1..], sep)
    else
      var rest := Split(s[1..], sep);
      [[s[0]] + rest[0]] + rest[1..]
  }

  /** Splitting a string without the separator gives the string itself. */
  lemma {:induction false} SplitNoSep(s: string, sep: char)
    requires sep !in s
    ensures Split(s, sep) == [s]
  {
    if s != [] {
      assert s == [s[0]] + s[1..];
      assert sep !in s[1..];
      SplitNoSep(s[1..], sep);
    }
  }

  /** The first segment is the text before the first separator. */
  lemma {:induction false} SplitAt(a: string, sep: char, b: string)
    requires sep !in a
    ensures Split(a + [sep] + b, sep) == [a] + Split(b, sep)
  {
    if a == [] {
      assert a + [sep] + b == [sep] + b;
      assert ([sep] + b)[1..] == b;
    } else {
      assert (a + [sep] + b)[1..] == a[1..] + [sep] + b;
      SplitAt(a[1..], sep, b);
      assert [a[0]] + a[1..] == a;
    }
  }

  /** `xs.join(sep)`, which is also what `String(array)` gives with ",". */
  function Join(xs: seq<string>, sep: string): string {
    if xs == [] then ""
    else if |xs| == 1 then xs[0]
    else xs[0] + sep + Join(xs[1..], sep)
  }
}
