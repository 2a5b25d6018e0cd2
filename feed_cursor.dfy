/**
 * The keyset cursor of the feed: a publication timestamp and id framed as
 * `t|id` and wrapped in base64.
 */
module FeedCursor {
  import opened Common

  /**
   * Base64 text, kept abstract: the constructor is the encoder and the
   * field is the decoder, so encoding and decoding are mutually inverse.
   */
  datatype Base64Text = Base64Of(utf8: string)

  datatype Cursor = Cursor(publishedAtIso: string, id: string)

  /** Either a cursor or the 'Invalid cursor' error. */
  datatype Decoded = Valid(cursor: Cursor) | InvalidCursor

  /** `encodeCursor`: the payload is exactly `t + "|" + id`. */
  function EncodeCursor(publishedAtIso: string, id: string): (c: Base64Text)
    ensures c.utf8 == publishedAtIso + "|" + id
    ensures |c.utf8| == |publishedAtIso| + |id| + 1 && c.utf8[|publishedAtIso|] == '|'
  {
    Base64Of(publishedAtIso + "|" + id)
  }

  /**
   * `decodeCursor`: split the payload on '|', keep the first two segments
   * and reject the cursor when either is empty or missing.
   */
  function DecodeCursor(c: Base64Text): (r: Decoded)
    ensures r.Valid? ==> r.cursor.publishedAtIso != "" && r.cursor.id != ""
    ensures r.Valid? ==> '|' !in r.cursor.publishedAtIso
  {
    var parts := Split(c.utf8, '|');
    if |parts| < 2 || parts[0] == "" || parts[1] == "" then InvalidCursor
    else
      SplitSegmentsHaveNoSep(c.utf8, '|');
      Valid(Cursor(parts[0], parts[1]))
  }

  lemma {:induction false} SplitSegmentsHaveNoSep(s: string, sep: char)
    ensures forall k | 0 <= k < |Split(s, sep)| :: sep !in Split(s, sep)[k]
  {
    if s != [] {
      SplitSegmentsHaveNoSep(s[1..], sep);
    }
  }

  /** Decoding an encoded cursor gives the cursor back. */
  lemma CursorRoundTrip(publishedAtIso: string, id: string)
    requires publishedAtIso != "" && id != ""
    requires '|' !in publishedAtIso && '|' !in id
    ensures DecodeCursor(EncodeCursor(publishedAtIso, id)) == Valid(Cursor(publishedAtIso, id))
  {
    SplitAt(publishedAtIso, '|', id);
    SplitNoSep(id, '|');
  }

  /** A payload without '|' has no id part and is rejected. */
  lemma NoSeparatorIsInvalid(c: Base64Text)
    requires '|' !in c.utf8
    ensures DecodeCursor(c) == InvalidCursor
  {
    SplitNoSep(c.utf8, '|');
  }

  /** An empty timestamp part or an empty id part is rejected. */
  lemma EmptyPartIsInvalid(t: string, id: string, rest: string)
    requires '|' !in t && '|' !in id
    requires rest == [] || rest[0] == '|'
    requires t == "" || id == ""
    ensures DecodeCursor(Base64Of(t + "|" + id + rest)) == InvalidCursor
  {
    assert t + "|" + id + rest == t + ['|'] + (id + rest);
    SplitAt(t, '|', id + rest);
    if rest == [] {
      SplitNoSep(id, '|');
    } else {
      assert rest == ['|'] + rest[1..];
      assert id + rest == id + ['|'] + rest[1..];
      SplitAt(id, '|', rest[1..]);
    }
  }

  /** Only the first two segments are read: anything after a second '|' is ignored. */
  lemma ExtraSegmentsIgnored(t: string, id: string, rest: string)
    requires t != "" && id != "" && '|' !in t && '|' !in id
    ensures DecodeCursor(Base64Of(t + "|" + id + "|" + rest)) == Valid(Cursor(t, id))
  {
    assert t + "|" + id + "|" + rest == t + ['|'] + (id + ['|'] + rest);
    SplitAt(t, '|', id + ['|'] + rest);
    SplitAt(id, '|', rest);
  }

  /**
   * Exactly the payloads `t|id` and `t|id|...` with non-empty `t` and `id`
   * decode, and they decode to `(t, id)`.
   */
  lemma DecodeCharacterization(c: Base64Text, t: string, id: string)
    ensures DecodeCursor(c) == Valid(Cursor(t, id)) <==>
      (t != "" && id != "" && '|' !in t && '|' !in id &&
       (c.utf8 == t + "|" + id ||
        (|c.utf8| > |t| + |id| + 1 && c.utf8[..|t| + |id| + 2] == t + "|" + id + "|")))
  {
    var s := c.utf8;
    if DecodeCursor(c) == Valid(Cursor(t, id)) {
      SplitSegmentsHaveNoSep(s, '|');
      SplitReassemble(s, '|');
      var parts := Split(s, '|');
      assert parts[0] == t && parts[1] == id;
      PrefixOfSplit(s, '|');
    } else {
      if t != "" && id != "" && '|' !in t && '|' !in id {
        if s == t + "|" + id {
          CursorRoundTrip(t, id);
        } else if |s| > |t| + |id| + 1 && s[..|t| + |id| + 2] == t + "|" + id + "|" {
          var rest := s[|t| + |id| + 2..];
          assert s == t + "|" + id + "|" + rest;
          ExtraSegmentsIgnored(t, id, rest);
        }
      }
    }
  }

  /** The first segment followed by the separator is a prefix of the string. */
  lemma {:induction false} SplitReassemble(s: string, sep: char)
    ensures |Split(s, sep)| >= 2 ==>
              |s| > |Split(s, sep)[0]| && s[..|Split(s, sep)[0]| + 1] == Split(s, sep)[0] + [sep]
    ensures |Split(s, sep)| == 1 ==> s == Split(s, sep)[0]
  {
    if s != [] && s[0] != sep {
      SplitReassemble(s[1..], sep);
    }
  }

  /** When there are at least two segments, the payload starts with `p0|p1`. */
  lemma PrefixOfSplit(s: string, sep: char)
    requires |Split(s, sep)| >= 2
    ensures var p := Split(s, sep);
      var n := |p[0]| + 1 + |p[1]|;
      n <= |s| && s[..n] == p[0] + [sep] + p[1] &&
      (|p| == 2 ==> n == |s|) && (|p| > 2 ==> n < |s| && s[n] == sep)
  {
    var p := Split(s, sep);
    var k := |p[0]|;
    var tail := SplitHead(s, sep);
    SplitReassemble(tail, sep);
    var n := k + 1 + |p[1]|;
    assert |Split(tail, sep)| == |p| - 1 && Split(tail, sep)[0] == p[1];
    if |p| == 2 {
      assert tail == p[1];
    } else {
      assert tail[..|p[1]| + 1] == p[1] + [sep];
      assert tail[..|p[1]|] == p[1];
      assert s[n] == tail[|p[1]|];
    }
    assert s[..n] == s[..k + 1] + tail[..|p[1]|];
  }

  /** Splitting at the first separator: the head segment, the separator, and the split rest. */
  lemma SplitHead(s: string, sep: char) returns (tail: string)
    requires |Split(s, sep)| >= 2
    ensures var k := |Split(s, sep)[0]|;
      && k < |s| && s[..k + 1] == Split(s, sep)[0] + [sep]
      && tail == s[k + 1..] && Split(tail, sep) == Split(s, sep)[1..]
  {
    var p := Split(s, sep);
    SplitReassemble(s, sep);
    SplitSegmentsHaveNoSep(s, sep);
    var k := |p[0]|;
    tail := s[k + 1..];
    assert s == p[0] + [sep] + tail;
    SplitAt(p[0], sep, tail);
  }
}
