/** The regular expressions of the envelope parsers. Python's `$` also matches
    before one final line break, which is why each of them accepts one. */
module Patterns {
  import opened Labels

  /** The text up to where `$` may match. */
  function DropBreak(s: string): (r: string)
    ensures r == s || s == r + "\n"
  {
    if s != "" && s[|s| - 1] == '\n' then s[..|s| - 1] else s
  }

  predicate IsHex(c: char) {
    '0' <= c <= '9' || 'a' <= c <= 'f'
  }

  /** `^[0-9a-f]{64}$` */
  predicate IsSha(s: string) {
    var t := DropBreak(s);
    |t| == 64 && forall c :: c in t ==> IsHex(c)
  }

  /** `^sha256:[0-9a-f]{64}$` */
  predicate IsDigest(s: string) {
    "sha256:" <= s && IsSha(s[7..])
  }

  /** A lowercase UUID. */
  predicate IsUuid(s: string) {
    var t := DropBreak(s);
    |t| == 36 && forall i :: 0 <= i < 36 ==> if i in {8, 13, 18, 23} then t[i] == '-' else IsHex(t[i])
  }

  /** `^[A-Za-z0-9_.\-]+$` */
  predicate IsSafeLabel(s: string) {
    IsLabelText(DropBreak(s))
  }

  /** `^[A-Za-z0-9_.:/-]+$` */
  predicate IsSafeScope(s: string) {
    var t := DropBreak(s);
    t != "" && forall c :: c in t ==> IsLabelChar(c) || c in {':', '/'}
  }

  // ----- the expressions in full -----

  /** Python's `$`: before one final line break, or at the very end. */
  ghost predicate UpToBreak(s: string, accepts: string -> bool) {
    accepts(s) || (s != "" && s[|s| - 1] == '\n' && accepts(s[..|s| - 1]))
  }

  predicate OfChars(s: string, chars: string) {
    forall c :: c in s ==> c in chars
  }

  const HEX := "0123456789abcdef"

  lemma HexMeans(c: char)
    ensures IsHex(c) <==> c in HEX
  {
    if IsHex(c) {
      assert HEX[if c <= '9' then c as int - '0' as int else c as int - 'a' as int + 10] == c;
    }
  }

  lemma ShaMeans(s: string)
    ensures IsSha(s) <==> UpToBreak(s, t => |t| == 64 && OfChars(t, HEX))
  {
    hide IsHex;
    forall c ensures IsHex(c) <==> c in HEX {
      HexMeans(c);
    }
    assert '\n' !in HEX;
    if |s| == 64 && s[63] == '\n' {
      assert '\n' in s;
    }
  }

  lemma DigestMeans(s: string)
    ensures IsDigest(s) <==> exists t :: IsSha(t) && s == "sha256:" + t
  {
    if IsDigest(s) {
      assert s == "sha256:" + s[7..];
    }
    forall t | IsSha(t) && s == "sha256:" + t ensures IsDigest(s) {
      assert s[7..] == t;
    }
  }

  predicate IsPart(s: string, n: nat) {
    |s| == n && OfChars(s, HEX)
  }

  ghost predicate UuidParts(t: string, a: string, b: string, c: string, d: string, e: string) {
    && IsPart(a, 8) && IsPart(b, 4) && IsPart(c, 4) && IsPart(d, 4) && IsPart(e, 12)
    && t == a + "-" + b + "-" + c + "-" + d + "-" + e
  }

  lemma UuidMeans(s: string)
    ensures IsUuid(s) <==> exists a, b, c, d, e :: UuidParts(DropBreak(s), a, b, c, d, e)
  {
    hide IsHex, DropBreak;
    forall c ensures IsHex(c) <==> c in HEX {
      HexMeans(c);
    }
    var t := DropBreak(s);
    if IsUuid(s) {
      PartsOf(t);
      assert UuidParts(t, t[..8], t[9..13], t[14..18], t[19..23], t[24..]);
    }
    forall a, b, c, d, e | UuidParts(t, a, b, c, d, e) ensures IsUuid(s) {
      assert a == t[..8] && b == t[9..13] && c == t[14..18] && d == t[19..23] && e == t[24..];
      assert t[8] == '-' && t[13] == '-' && t[18] == '-' && t[23] == '-';
    }
  }

  lemma PartsOf(t: string)
    requires |t| == 36 && t[8] == t[13] == t[18] == t[23] == '-'
    ensures t == t[..8] + "-" + t[9..13] + "-" + t[14..18] + "-" + t[19..23] + "-" + t[24..]
  {
  }

  predicate IsAlnum(c: char) {
    65 <= c as int <= 90 || 97 <= c as int <= 122 || 48 <= c as int <= 57
  }

  predicate LabelText(s: string) {
    s != "" && forall c :: c in s ==> IsAlnum(c) || c in {'_', '.', '-'}
  }

  predicate ScopeText(s: string) {
    s != "" && forall c :: c in s ==> IsAlnum(c) || c in {'_', '.', ':', '/', '-'}
  }

  lemma CharsMean(c: char)
    ensures IsLabelChar(c) <==> IsAlnum(c) || c in {'_', '.', '-'}
    ensures IsLabelChar('\n') == IsAlnum('\n') == false
  {
  }

  lemma LabelMeans(s: string)
    ensures IsSafeLabel(s) <==> UpToBreak(s, LabelText)
  {
    hide IsAlnum, IsLabelChar;
    forall c ensures IsLabelChar(c) <==> IsAlnum(c) || c in {'_', '.', '-'} {
      CharsMean(c);
    }
    CharsMean('\n');
    BreakIsNoChar(s);
  }

  lemma ScopeMeans(s: string)
    ensures IsSafeScope(s) <==> UpToBreak(s, ScopeText)
  {
    hide IsAlnum, IsLabelChar;
    forall c ensures IsLabelChar(c) <==> IsAlnum(c) || c in {'_', '.', '-'} {
      CharsMean(c);
    }
    CharsMean('\n');
    BreakIsNoChar(s);
  }

  lemma BreakIsNoChar(s: string)
    ensures s != "" && s[|s| - 1] == '\n' ==> '\n' in s
  {
  }
}
