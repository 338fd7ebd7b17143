/**
 * The application/x-www-form-urlencoded format of the WHATWG URL Standard:
 * the serializer of section 5.2, which `URLSearchParams.toString()` uses, and
 * the parser of section 5.1, given here as the serializer's inverse.
 *
 * Characters below U+0080 are encoded as the standard says: ASCII letters,
 * digits and `*-._` stay, a space becomes `+`, every other ASCII character
 * becomes `%` followed by two upper-case hexadecimal digits. Characters at or
 * above U+0080 are written unchanged (their UTF-8 percent-encoding is not part
 * of this model); they can never be mistaken for `%`, `+`, `&` or `=`.
 */
module FormUrlEncoded {

  /** One (name, value) tuple of a URLSearchParams list. */
  datatype Pair = Pair(name: string, value: string)

  /** Characters the urlencoded percent-encode set leaves alone. */
  predicate IsUnreserved(c: char) {
    ('a' <= c <= 'z') || ('A' <= c <= 'Z') || ('0' <= c <= '9')
    || c == '*' || c == '-' || c == '.' || c == '_'
  }

  function HexDigit(n: nat): (c: char)
    requires n < 16
    ensures IsHexDigit(c) && HexValue(c) == n
  {
    if n < 10 then (48 + n) as char else (55 + n) as char
  }

  predicate IsHexDigit(c: char) {
    ('0' <= c <= '9') || ('A' <= c <= 'F') || ('a' <= c <= 'f')
  }

  function HexValue(c: char): nat
    requires IsHexDigit(c)
  {
    if '0' <= c <= '9' then c as nat - 48
    else if 'A' <= c <= 'F' then c as nat - 55
    else c as nat - 87
  }

  function EncodeChar(c: char): string {
    if IsUnreserved(c) then [c]
    else if c == ' ' then ['+']
    else if (c as int) < 128 then ['%', HexDigit(c as nat / 16), HexDigit(c as nat % 16)]
    else [c]
  }

  /** Percent-encodes a name or a value. */
  function Encode(s: string): string {
    if s == [] then [] else EncodeChar(s[0]) + Encode(s[1..])
  }

  /** `+` becomes a space, `%XX` the character with that code, anything else stays. */
  function Decode(s: string): string
    decreases |s|
  {
    if s == [] then []
    else if s[0] == '+' then [' '] + Decode(s[1..])
    else if s[0] == '%' && |s| >= 3 && IsHexDigit(s[1]) && IsHexDigit(s[2])
    then [(HexValue(s[1]) * 16 + HexValue(s[2])) as char] + Decode(s[3..])
    else [s[0]] + Decode(s[1..])
  }

  function SerializePair(p: Pair): string {
    Encode(p.name) + "=" + Encode(p.value)
  }

  /** Section 5.2: `name=value` for every tuple, in list order, joined by `&`. */
  function Serialize(ps: seq<Pair>): (r: string)
    ensures r == "" <==> ps == []
    ensures ps != [] ==> SerializePair(ps[0]) <= r
  {
    if |ps| == 0 then ""
    else if |ps| == 1 then SerializePair(ps[0])
    else SerializePair(ps[0]) + "&" + Serialize(ps[1..])
  }

  /** Splits `s` at every `sep`; always at least one piece. */
  function Split(s: string, sep: char): (pieces: seq<string>)
    ensures |pieces| >= 1
    decreases |s|
  {
    if |s| == 0 then [""]
    else
      var rest := Split(s[1..], sep);
      if s[0] == sep then [""] + rest else [[s[0]] + rest[0]] + rest[1..]
  }

  function IndexOf(s: string, c: char): (i: nat)
    requires c in s
    ensures i < |s| && s[i] == c && c !in s[..i]
  {
    if s[0] == c then 0 else 1 + IndexOf(s[1..], c)
  }

  /** One `&`-separated piece: the name runs to the first `=`, the value is the rest. */
  function ParsePiece(piece: string): Pair {
    if '=' in piece then
      var i := IndexOf(piece, '=');
      Pair(Decode(piece[..i]), Decode(piece[i + 1..]))
    else Pair(Decode(piece), "")
  }

  /** Parses pieces in order, skipping empty ones. */
  function ParsePieces(pieces: seq<string>): seq<Pair> {
    if |pieces| == 0 then []
    else (if pieces[0] == "" then [] else [ParsePiece(pieces[0])]) + ParsePieces(pieces[1..])
  }

  /**
   * The inverse of Serialize, shaped like the parser of section 5.1: `%XX`
   * gives the single character U+00XX, where section 5.1 would decode the
   * bytes as UTF-8.
   */
  function Parse(s: string): seq<Pair> {
    ParsePieces(Split(s, '&'))
  }

  // ---------------------------------------------------------------------------
  // Properties

  lemma {:induction false} DecodeEncodeChar(c: char, t: string)
    ensures Decode(EncodeChar(c) + t) == [c] + Decode(t)
  {
    var e := EncodeChar(c) + t;
    if IsUnreserved(c) || (c as int) >= 128 {
      assert e[0] == c && e[1..] == t;
    } else if c == ' ' {
      assert e[0] == '+' && e[1..] == t;
    } else {
      var hi, lo := HexDigit(c as nat / 16), HexDigit(c as nat % 16);
      assert e[0] == '%' && e[1] == hi && e[2] == lo && e[3..] == t;
      assert (HexValue(hi) * 16 + HexValue(lo)) as char == c;
    }
  }

  /** Decoding undoes encoding for every string. */
  lemma {:induction false} DecodeEncode(s: string)
    ensures Decode(Encode(s)) == s
  {
    if s != [] {
      DecodeEncodeChar(s[0], Encode(s[1..]));
      DecodeEncode(s[1..]);
    }
  }

  /** An encoded name or value holds no `&` and no `=`. */
  lemma {:induction false} EncodeHasNoSeparators(s: string)
    ensures '&' !in Encode(s) && '=' !in Encode(s)
  {
    if s != [] {
      EncodeHasNoSeparators(s[1..]);
      var c := s[0];
      if !IsUnreserved(c) && c != ' ' && (c as int) < 128 {
        var hi, lo := HexDigit(c as nat / 16), HexDigit(c as nat % 16);
        assert EncodeChar(c) == ['%', hi, lo];
      }
      assert Encode(s) == EncodeChar(c) + Encode(s[1..]);
    }
  }

  lemma {:induction false} SplitNoSeparator(a: string, sep: char)
    requires sep !in a
    ensures Split(a, sep) == [a]
  {
    if |a| > 0 {
      SplitNoSeparator(a[1..], sep);
      assert [a[0]] + a[1..] == a;
    }
  }

  lemma {:induction false} SplitAt(a: string, sep: char, b: string)
    requires sep !in a
    ensures Split(a + [sep] + b, sep) == [a] + Split(b, sep)
  {
    var s := a + [sep] + b;
    if |a| == 0 {
      assert s[0] == sep && s[1..] == b;
    } else {
      assert s[0] == a[0] && s[1..] == a[1..] + [sep] + b;
      SplitAt(a[1..], sep, b);
      assert [a[0]] + a[1..] == a;
    }
  }

  lemma ParseSerializedPair(p: Pair)
    ensures SerializePair(p) != "" && '&' !in SerializePair(p)
    ensures ParsePiece(SerializePair(p)) == p
  {
    var n, v := Encode(p.name), Encode(p.value);
    EncodeHasNoSeparators(p.name);
    EncodeHasNoSeparators(p.value);
    var s := SerializePair(p);
    assert s == n + "=" + v;
    assert s[|n|] == '=' && s[..|n|] == n && s[|n| + 1..] == v;
    assert '=' in s;
    var i := IndexOf(s, '=');
    assert i == |n|;
    DecodeEncode(p.name);
    DecodeEncode(p.value);
  }

  /** Parsing a serialization gives back the same list, so serialization is injective. */
  lemma {:induction false} ParseSerialize(ps: seq<Pair>)
    ensures Parse(Serialize(ps)) == ps
  {
    if |ps| == 0 {
    } else if |ps| == 1 {
      ParseSerializedPair(ps[0]);
      SplitNoSeparator(SerializePair(ps[0]), '&');
      assert Split(Serialize(ps), '&') == [SerializePair(ps[0])];
      assert ParsePieces([SerializePair(ps[0])]) == [ps[0]] + ParsePieces([]);
    } else {
      var head := SerializePair(ps[0]);
      ParseSerializedPair(ps[0]);
      SplitAt(head, '&', Serialize(ps[1..]));
      var pieces := [head] + Split(Serialize(ps[1..]), '&');
      assert Split(Serialize(ps), '&') == pieces;
      assert pieces[1..] == Split(Serialize(ps[1..]), '&');
      ParseSerialize(ps[1..]);
      assert ps == [ps[0]] + ps[1..];
    }
  }

  lemma SerializeInjective(a: seq<Pair>, b: seq<Pair>)
    ensures Serialize(a) == Serialize(b) <==> a == b
  {
    if Serialize(a) == Serialize(b) {
      ParseSerialize(a);
      ParseSerialize(b);
    }
  }
}
