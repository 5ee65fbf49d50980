/** Paths, numbers and signatures as texts: what the builder makes of them can be read off again. */
module GitTexts {
  import opened Wrappers
  import opened ByteStrings
  import opened GitObjects
  import opened GitMarketplace

  // ---- Paths ----

  predicate Slashes(s: string) {
    forall i | 0 <= i < |s| :: s[i] == '/'
  }

  lemma {:induction false} TrailingOff(s: string, tail: string)
    requires Slashes(tail) && (s == "" || s[|s| - 1] != '/')
    ensures TrimTrailingSlashes(s + tail) == s
  {
    if tail == "" {
      assert s + tail == s;
    } else {
      TrailingOff(s, tail[..|tail| - 1]);
      var text := s + tail;
      assert text[..|text| - 1] == s + tail[..|tail| - 1] && text[|text| - 1] == tail[|tail| - 1];
    }
  }

  lemma {:induction false} LeadingOff(lead: string, s: string)
    requires Slashes(lead) && (s == "" || s[0] != '/')
    ensures TrimLeadingSlashes(lead + s) == s
  {
    if lead == "" {
      assert lead + s == s;
    } else {
      LeadingOff(lead[1..], s);
      assert (lead + s)[1..] == lead[1..] + s && (lead + s)[0] == lead[0];
    }
  }

  /** Slashes around a path do not matter; between its segments there is one each. */
  lemma SegmentsOf(lead: string, segments: seq<string>, tail: string)
    requires Slashes(lead) && Slashes(tail) && segments != [] && SlashFree(segments)
    requires |segments[0]| > 0 && |segments[|segments| - 1]| > 0
    ensures Segments(lead + Join(segments) + tail) == segments
  {
    var core := Join(segments);
    JoinEnds(segments);
    assert lead + core + tail == lead + (core + tail);
    LeadingOff(lead, core + tail);
    TrailingOff(core, tail);
    SplitJoin(segments);
  }

  lemma {:induction false} JoinEnds(segments: seq<string>)
    requires segments != [] && SlashFree(segments)
    requires |segments[0]| > 0 && |segments[|segments| - 1]| > 0
    ensures var core := Join(segments); core != "" && core[0] != '/' && core[|core| - 1] != '/'
  {
    assert segments[0] in segments && segments[0][0] in segments[0];
    JoinLast(segments);
  }

  lemma {:induction false} JoinLast(segments: seq<string>)
    requires segments != [] && SlashFree(segments) && |segments[|segments| - 1]| > 0
    ensures Join(segments) != "" && Join(segments)[|Join(segments)| - 1] != '/'
  {
    if |segments| == 1 {
      assert segments[0] in segments && segments[0][|segments[0]| - 1] in segments[0];
    } else {
      JoinLast(segments[1..]);
    }
  }

  // ---- Numbers ----

  /** What decimal digits stand for. */
  function Number(s: string): int {
    if s == "" then 0 else 10 * Number(s[..|s| - 1]) + (s[|s| - 1] as int - '0' as int)
  }

  lemma DigitReads(d: nat)
    requires d < 10
    ensures '0' <= Digit(d) <= '9' && Digit(d) as int - '0' as int == d
  {}

  lemma NumberNext(init: string, d: nat)
    requires d < 10
    ensures Number(init + [Digit(d)]) == 10 * Number(init) + d
  {
    hide Digit;
    DigitReads(d);
    assert (init + [Digit(d)])[..|init|] == init;
  }

  /** Sizes and times are written in full and without leading zeros. */
  lemma {:induction false} DecimalReads(n: nat)
    ensures var s := Decimal(n);
            && s != "" && (forall i | 0 <= i < |s| :: '0' <= s[i] <= '9')
            && Number(s) == n && (s[0] == '0' ==> n == 0)
  {
    hide Digit, Number;
    DigitReads(n % 10);
    if n >= 10 {
      DecimalReads(n / 10);
      NumberNext(Decimal(n / 10), n % 10);
    } else {
      NumberNext("", n);
      NumberOfNone();
      assert "" + [Digit(n)] == [Digit(n)];
    }
  }

  lemma NumberOfNone()
    ensures Number("") == 0
  {}

  // ---- Signatures ----

  const AUTHOR := "author " + "PluginPocket Marketplace <marketplace@pluginpocket.dev> "

  /** The time of a commit: the number after the author's name and address. */
  function AuthorTime(signature: string): Option<string> {
    if |signature| < |AUTHOR| || signature[..|AUTHOR|] != AUTHOR then None
    else
      match Cut(signature[|AUTHOR|..], ' ')
      case None => None
      case Some(timed) => Some(timed.0)
  }

  /** A commit carries the time it was made with. */
  lemma SignedAt(timestamp: nat)
    ensures AuthorTime(Signature(timestamp)) == Some(Decimal(timestamp)) && Number(Decimal(timestamp)) == timestamp
  {
    hide Signature, Identity, Decimal, Number, Cut;
    var rest := "+0000" + ("\ncommitter " + Identity(timestamp) + "\n\nPluginPocket marketplace snapshot\n");
    SignatureShape(timestamp, rest);
    DecimalReads(timestamp);
    CutFirst(Decimal(timestamp), ' ', rest);
    var text := Signature(timestamp);
    assert text[..|AUTHOR|] == AUTHOR && text[|AUTHOR|..] == Decimal(timestamp) + [' '] + rest;
  }

  lemma SignatureShape(timestamp: nat, rest: string)
    requires rest == "+0000" + ("\ncommitter " + Identity(timestamp) + "\n\nPluginPocket marketplace snapshot\n")
    ensures Signature(timestamp) == AUTHOR + (Decimal(timestamp) + [' '] + rest)
  {
    hide Decimal;
    assert " +0000" == [' '] + "+0000";
  }
}
