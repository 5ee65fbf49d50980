/** Go strings and byte slices: sequences of bytes, one char a byte. */
module ByteStrings {
  import opened Wrappers

  const NUL := '\U{0000}'

  predicate IsBytes(s: string) {
    forall i | 0 <= i < |s| :: s[i] as int < 256
  }

  // ---- Order ----

  /** Go's `<=` on strings: byte by byte, a prefix first. */
  predicate AtMost(a: string, b: string) {
    a == "" || (b != "" && (a[0] < b[0] || (a[0] == b[0] && AtMost(a[1..], b[1..]))))
  }

  lemma {:induction false} AtMostTotal(a: string, b: string)
    ensures AtMost(a, b) || AtMost(b, a)
  {
    if a != "" && b != "" && a[0] == b[0] {
      AtMostTotal(a[1..], b[1..]);
    }
  }

  lemma {:induction false} AtMostTransitive(a: string, b: string, c: string)
    requires AtMost(a, b) && AtMost(b, c)
    ensures AtMost(a, c)
  {
    if a != "" && a[0] == b[0] == c[0] {
      AtMostTransitive(a[1..], b[1..], c[1..]);
    }
  }

  lemma {:induction false} AtMostAntisymmetric(a: string, b: string)
    requires AtMost(a, b) && AtMost(b, a)
    ensures a == b
  {
    if a != "" {
      AtMostAntisymmetric(a[1..], b[1..]);
      assert a == [a[0]] + a[1..] && b == [b[0]] + b[1..];
    }
  }

  // ---- Cutting ----

  /** strings.Cut at one byte: what stands before and after its first occurrence. */
  function Cut(s: string, c: char): (r: Option<(string, string)>)
    ensures r.Some? ==> |r.value.0| + 1 + |r.value.1| == |s|
  {
    if s == "" then None
    else if s[0] == c then Some(("", s[1..]))
    else
      match Cut(s[1..], c)
      case None => None
      case Some(cut) => Some(([s[0]] + cut.0, cut.1))
  }

  lemma {:induction false} CutExact(s: string, c: char)
    ensures Cut(s, c).None? ==> c !in s
    ensures Cut(s, c).Some? ==> var (before, after) := Cut(s, c).value; c !in before && s == before + [c] + after
  {
    if s != "" && s[0] != c {
      CutExact(s[1..], c);
      assert s == [s[0]] + s[1..];
    }
  }

  lemma {:induction false} CutFirst(a: string, c: char, b: string)
    requires c !in a
    ensures Cut(a + [c] + b, c) == Some((a, b))
  {
    var s := a + [c] + b;
    if a == "" {
      assert s[0] == c && s[1..] == b;
    } else {
      CutFirst(a[1..], c, b);
      assert s[0] == a[0] && s[1..] == a[1..] + [c] + b;
      assert [a[0]] + a[1..] == a;
    }
  }

  // ---- Slash-separated paths ----

  /** The next character either starts a new segment or extends the first one. */
  function Prepend(c: char, parts: seq<string>): (r: seq<string>)
    requires parts != []
    ensures r != []
  {
    if c == '/' then [""] + parts else [[c] + parts[0]] + parts[1..]
  }

  /** strings.Split(s, "/") */
  function Split(s: string): (parts: seq<string>)
    ensures parts != []
  {
    if s == "" then [""] else Prepend(s[0], Split(s[1..]))
  }

  function Join(parts: seq<string>): string
    requires parts != []
  {
    if |parts| == 1 then parts[0] else parts[0] + "/" + Join(parts[1..])
  }

  ghost predicate SlashFree(parts: seq<string>) {
    forall part <- parts :: '/' !in part
  }

  lemma {:induction false} SplitSlashFree(s: string)
    ensures SlashFree(Split(s))
  {
    if s != "" {
      SplitSlashFree(s[1..]);
      var rest := Split(s[1..]);
      forall part | part in Split(s) ensures '/' !in part {
        if part !in rest {
          assert part == "" || part == [s[0]] + rest[0];
          assert rest[0] in rest;
        }
      }
    }
  }

  lemma JoinPrepend(c: char, parts: seq<string>)
    requires parts != []
    ensures Join(Prepend(c, parts)) == [c] + Join(parts)
  {
    var longer := Prepend(c, parts);
    if c == '/' {
      assert longer[1..] == parts;
    } else if |parts| > 1 {
      assert longer[1..] == parts[1..];
      assert [c] + (parts[0] + "/" + Join(parts[1..])) == ([c] + parts[0]) + "/" + Join(parts[1..]);
    }
  }

  lemma {:induction false} JoinSplit(s: string)
    ensures Join(Split(s)) == s
  {
    if s != "" {
      JoinSplit(s[1..]);
      JoinPrepend(s[0], Split(s[1..]));
      assert s == [s[0]] + s[1..];
    }
  }

  lemma PrependConcat(c: char, a: seq<string>, b: seq<string>)
    requires a != []
    ensures Prepend(c, a + b) == Prepend(c, a) + b
  {
    assert (a + b)[0] == a[0] && (a + b)[1..] == a[1..] + b;
  }

  /** Splitting goes piece by piece. */
  lemma {:induction false} SplitConcat(a: string, b: string)
    ensures Split(a + "/" + b) == Split(a) + Split(b)
  {
    var s := a + "/" + b;
    if a == "" {
      assert s[0] == '/' && s[1..] == b;
    } else {
      SplitConcat(a[1..], b);
      assert s[0] == a[0] && s[1..] == a[1..] + "/" + b;
      PrependConcat(a[0], Split(a[1..]), Split(b));
      assert Split(s) == Prepend(s[0], Split(s[1..]));
    }
  }

  lemma {:induction false} SplitPlain(s: string)
    requires '/' !in s
    ensures Split(s) == [s]
  {
    if s != "" {
      SplitPlain(s[1..]);
      assert s == [s[0]] + s[1..];
    }
  }

  lemma {:induction false} SplitJoin(parts: seq<string>)
    requires parts != [] && SlashFree(parts)
    ensures Split(Join(parts)) == parts
  {
    SplitPlain(parts[0]);
    if |parts| > 1 {
      SplitJoin(parts[1..]);
      SplitConcat(parts[0], Join(parts[1..]));
      assert parts == [parts[0]] + parts[1..];
    }
  }

  /** Every byte of a segment is a byte of the path. */
  lemma {:induction false} SplitBytes(s: string, c: char)
    requires c !in s
    ensures forall part <- Split(s) :: c !in part
  {
    if s != "" {
      SplitBytes(s[1..], c);
      var rest := Split(s[1..]);
      forall part | part in Split(s) ensures c !in part {
        if part !in rest {
          assert part == "" || part == [s[0]] + rest[0];
          assert rest[0] in rest;
        }
      }
    }
  }

  function TrimLeadingSlashes(s: string): string {
    if s != "" && s[0] == '/' then TrimLeadingSlashes(s[1..]) else s
  }

  function TrimTrailingSlashes(s: string): string {
    if s != "" && s[|s| - 1] == '/' then TrimTrailingSlashes(s[..|s| - 1]) else s
  }

  /** strings.Trim(s, "/") */
  function TrimSlashes(s: string): string {
    TrimTrailingSlashes(TrimLeadingSlashes(s))
  }

  // ---- Numbers ----

  function Digit(n: nat): char
    requires n < 16
  {
    "0123456789abcdef"[n]
  }

  function DigitValue(c: char): Option<nat> {
    if '0' <= c <= '9' then Some(c as int - '0' as int)
    else if 'a' <= c <= 'f' then Some(c as int - 'a' as int + 10)
    else if 'A' <= c <= 'F' then Some(c as int - 'A' as int + 10)
    else None
  }

  function Decimal(n: nat): (s: string)
    ensures forall c <- s :: '0' <= c <= '9'
  {
    if n < 10 then [Digit(n)] else Decimal(n / 10) + [Digit(n % 10)]
  }

  /** hex.EncodeToString */
  function Hex(s: string): (h: string)
    requires IsBytes(s)
    ensures |h| == 2 * |s|
  {
    if s == "" then ""
    else [Digit(s[0] as int / 16), Digit(s[0] as int % 16)] + Hex(s[1..])
  }

  /** hex.DecodeString, which also takes upper-case digits. */
  function Unhex(h: string): (r: Option<string>)
    ensures r.Some? ==> IsBytes(r.value)
  {
    if h == "" then Some("")
    else if |h| == 1 then None
    else
      match (DigitValue(h[0]), DigitValue(h[1]), Unhex(h[2..]))
      case (Some(hi), Some(lo), Some(rest)) => Some([(16 * hi + lo) as char] + rest)
      case _ => None
  }

  lemma {:induction false} UnhexHex(s: string)
    requires IsBytes(s)
    ensures Unhex(Hex(s)) == Some(s)
  {
    if s != "" {
      var n, tail := s[0] as int, Hex(s[1..]);
      UnhexHex(s[1..]);
      UnhexPair(n, tail);
      assert [n as char] + s[1..] == s;
    }
  }

  predicate AllHex(h: string) {
    forall i | 0 <= i < |h| :: DigitValue(h[i]).Some?
  }

  /** These bytes, each written as two digits of either case. */
  predicate Spells(h: string, bytes: string) {
    && |h| == 2 * |bytes| && AllHex(h)
    && forall i | 0 <= i < |bytes| ::
        bytes[i] as int == 16 * DigitValue(h[2 * i]).value + DigitValue(h[2 * i + 1]).value
  }

  /** It decodes exactly the strings of an even number of digits, to the bytes they spell. */
  lemma {:induction false} UnhexExact(h: string)
    ensures Unhex(h).Some? <==> |h| % 2 == 0 && AllHex(h)
    ensures Unhex(h).Some? ==> Spells(h, Unhex(h).value)
  {
    if |h| >= 2 {
      UnhexExact(h[2..]);
      UnhexMore(h, Unhex(h[2..]));
    }
  }

  lemma SameParity(n: nat)
    requires n >= 2
    ensures (n - 2) % 2 == n % 2
  {}

  lemma UnhexMore(h: string, rest: Option<string>)
    requires |h| >= 2 && rest == Unhex(h[2..])
    requires rest.Some? <==> |h[2..]| % 2 == 0 && AllHex(h[2..])
    requires rest.Some? ==> Spells(h[2..], rest.value)
    ensures Unhex(h).Some? <==> |h| % 2 == 0 && AllHex(h)
    ensures Unhex(h).Some? ==> Spells(h, Unhex(h).value)
  {
    hide Spells, AllHex;
    var whole := Unhex(h);
    SameParity(|h|);
    AllHexTail(h);
    assert whole.Some? <==> DigitValue(h[0]).Some? && DigitValue(h[1]).Some? && rest.Some?;
    if whole.Some? {
      assert whole.value[1..] == rest.value;
      SpellsMore(h, whole.value);
    }
  }

  lemma AllHexTail(h: string)
    requires |h| >= 2
    ensures AllHex(h) <==> DigitValue(h[0]).Some? && DigitValue(h[1]).Some? && AllHex(h[2..])
  {
    forall i | 2 <= i < |h| ensures h[i] == h[2..][i - 2] {}
  }

  lemma SpellsMore(h: string, bytes: string)
    requires |h| >= 2 && bytes != "" && Spells(h[2..], bytes[1..]) && AllHex(h)
    requires bytes[0] as int == 16 * DigitValue(h[0]).value + DigitValue(h[1]).value
    ensures Spells(h, bytes)
  {
    forall i | 0 <= i < |bytes|
      ensures bytes[i] as int == 16 * DigitValue(h[2 * i]).value + DigitValue(h[2 * i + 1]).value
    {
      if i > 0 {
        assert bytes[i] == bytes[1..][i - 1] && h[2 * i] == h[2..][2 * (i - 1)]
            && h[2 * i + 1] == h[2..][2 * (i - 1) + 1];
      }
    }
  }

  lemma UnhexPair(n: nat, tail: string)
    requires n < 256 && Unhex(tail).Some?
    ensures Unhex([Digit(n / 16), Digit(n % 16)] + tail) == Some([n as char] + Unhex(tail).value)
  {
    var h := [Digit(n / 16), Digit(n % 16)] + tail;
    assert h[2..] == tail && h[0] == Digit(n / 16) && h[1] == Digit(n % 16);
    DigitBack(n / 16);
    DigitBack(n % 16);
    assert 16 * (n / 16) + n % 16 == n;
  }

  lemma DigitBack(n: nat)
    requires n < 16
    ensures DigitValue(Digit(n)) == Some(n)
  {
    if n < 8 { assert n in {0, 1, 2, 3, 4, 5, 6, 7}; } else { assert n in {8, 9, 10, 11, 12, 13, 14, 15}; }
  }

  lemma {:induction false} HexDigits(s: string)
    requires IsBytes(s)
    ensures forall c <- Hex(s) :: '0' <= c <= '9' || 'a' <= c <= 'f'
  {
    if s != "" {
      HexDigits(s[1..]);
    }
  }

  // ---- White space ----

  predicate IsAsciiSpace(c: char) { '\U{0009}' <= c <= '\U{000D}' || c == ' ' }

  /** The other white-space characters, in UTF-8: U+0085 and U+00A0. */
  predicate IsSpacePair(a: char, b: char) {
    a as int == 0xC2 && b as int in {0x85, 0xA0}
  }

  /** U+1680, U+2000 to U+200A, U+2028, U+2029, U+202F, U+205F and U+3000. */
  predicate IsSpaceTriple(a: char, b: char, c: char) {
    || (a as int == 0xE1 && b as int == 0x9A && c as int == 0x80)
    || (a as int == 0xE2 && b as int == 0x80 && (0x80 <= c as int <= 0x8A || c as int in {0xA8, 0xA9, 0xAF}))
    || (a as int == 0xE2 && b as int == 0x81 && c as int == 0x9F)
    || (a as int == 0xE3 && b as int == 0x80 && c as int == 0x80)
  }

  /** The length of the white-space character at the start, if there is one. */
  function LeadingSpace(s: string): (k: nat)
    ensures k <= 3 && k <= |s|
  {
    if |s| >= 1 && IsAsciiSpace(s[0]) then 1
    else if |s| >= 2 && IsSpacePair(s[0], s[1]) then 2
    else if |s| >= 3 && IsSpaceTriple(s[0], s[1], s[2]) then 3
    else 0
  }

  /** And of the one at the end. */
  function TrailingSpace(s: string): (k: nat)
    ensures k <= 3 && k <= |s|
  {
    var n := |s|;
    if n >= 1 && IsAsciiSpace(s[n - 1]) then 1
    else if n >= 2 && IsSpacePair(s[n - 2], s[n - 1]) then 2
    else if n >= 3 && IsSpaceTriple(s[n - 3], s[n - 2], s[n - 1]) then 3
    else 0
  }

  /** strings.TrimSpace. */
  function TrimSpace(s: string): (r: string)
    decreases |s|
  {
    if LeadingSpace(s) > 0 then TrimSpace(s[LeadingSpace(s)..])
    else if TrailingSpace(s) > 0 then TrimSpace(s[..|s| - TrailingSpace(s)])
    else s
  }

  /** White-space characters only. */
  predicate White(s: string)
    decreases |s|
  {
    s == "" || (LeadingSpace(s) > 0 && White(s[LeadingSpace(s)..]))
  }

  lemma LeadingAlone(s: string, rest: string)
    requires LeadingSpace(s) == |s| > 0
    ensures LeadingSpace(s + rest) == |s|
  {}

  lemma FirstAlone(s: string)
    requires LeadingSpace(s) > 0
    ensures LeadingSpace(s[..LeadingSpace(s)]) == LeadingSpace(s)
  {}

  lemma {:induction false} WhiteSnoc(w: string, last: string)
    requires White(w) && LeadingSpace(last) == |last| > 0
    ensures White(w + last)
    decreases |w|
  {
    hide LeadingSpace;
    if w == "" {
      assert w + last == last;
      assert last[|last|..] == "";
    } else {
      var k := LeadingSpace(w);
      WhiteSnoc(w[k..], last);
      FirstAlone(w);
      LeadingAlone(w[..k], w[k..] + last);
      assert w + last == w[..k] + (w[k..] + last);
      assert (w + last)[k..] == w[k..] + last;
    }
  }

  lemma WhiteCons(first: string, w: string)
    requires White(w) && LeadingSpace(first) == |first| > 0
    ensures White(first + w)
  {
    hide LeadingSpace;
    LeadingAlone(first, w);
    assert (first + w)[|first|..] == w;
  }

  lemma TrailingAlone(s: string)
    requires TrailingSpace(s) > 0
    ensures var last := s[|s| - TrailingSpace(s)..]; LeadingSpace(last) == |last|
  {}

  lemma {:induction false} Trimmed(s: string) returns (lead: string, tail: string)
    ensures s == lead + TrimSpace(s) + tail && White(lead) && White(tail)
    ensures LeadingSpace(TrimSpace(s)) == 0 && TrailingSpace(TrimSpace(s)) == 0
    decreases |s|
  {
    hide LeadingSpace, TrailingSpace, White;
    var k, n := LeadingSpace(s), TrailingSpace(s);
    if k > 0 {
      lead, tail := Trimmed(s[k..]);
      lead := TrimmedLeft(s, k, lead, TrimSpace(s), tail);
    } else if n > 0 {
      lead, tail := Trimmed(s[..|s| - n]);
      tail := TrimmedRight(s, n, lead, TrimSpace(s), tail);
    } else {
      lead, tail := "", "";
      NothingIsWhite();
    }
  }

  lemma NothingIsWhite()
    ensures White("")
  {}

  lemma TrimmedLeft(s: string, k: nat, lead: string, r: string, tail: string) returns (longer: string)
    requires LeadingSpace(s) == k > 0 && s[k..] == lead + r + tail && White(lead)
    ensures s == longer + r + tail && White(longer)
  {
    hide LeadingSpace;
    longer := s[..k] + lead;
    FirstAlone(s);
    WhiteCons(s[..k], lead);
    assert s == s[..k] + s[k..];
  }

  lemma TrimmedRight(s: string, k: nat, lead: string, r: string, tail: string) returns (longer: string)
    requires TrailingSpace(s) == k > 0 && s[..|s| - k] == lead + r + tail && White(tail)
    ensures s == lead + r + longer && White(longer)
  {
    hide LeadingSpace, TrailingSpace;
    longer := tail + s[|s| - k..];
    TrailingAlone(s);
    WhiteSnoc(tail, s[|s| - k..]);
    assert s == s[..|s| - k] + s[|s| - k..];
  }

  lemma {:induction false} WhiteConcat(a: string, b: string)
    requires White(a) && White(b)
    ensures White(a + b)
    decreases |a|
  {
    hide LeadingSpace;
    if a == "" {
      assert a + b == b;
    } else {
      var k := LeadingSpace(a);
      WhiteConcat(a[k..], b);
      FirstAlone(a);
      WhiteCons(a[..k], a[k..] + b);
      assert a + b == a[..k] + (a[k..] + b);
    }
  }

  /** White space is trimmed away altogether. */
  lemma {:induction false} WhiteTrims(s: string)
    requires White(s)
    ensures TrimSpace(s) == ""
    decreases |s|
  {
    if s != "" { WhiteTrims(s[LeadingSpace(s)..]); }
  }
}
