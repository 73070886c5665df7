/** Wildcard patterns as text: segments joined by dots, double quotes around a segment
    that holds a dot, a leading `!` for an exclusion. */
module PatternText {

  type Segs = seq<string>

  /** Drop a `*` that follows a `*`. */
  function Collapse(segs: Segs): Segs
    decreases |segs|
  {
    if segs == [] then []
    else
      var init, last := Collapse(segs[..|segs| - 1]), segs[|segs| - 1];
      if last == "*" && init != [] && init[|init| - 1] == "*" then init else init + [last]
  }

  ghost predicate Collapsed(segs: Segs) {
    forall i :: 0 <= i < |segs| - 1 ==> !(segs[i] == "*" && segs[i + 1] == "*")
  }

  method CollapseStars(segs: Segs) returns (out: Segs)
    ensures out == Collapse(segs)
  {
    out := [];
    for i := 0 to |segs|
      invariant out == Collapse(segs[..i])
    {
      assert segs[..i + 1][..i] == segs[..i];
      if segs[i] == "*" && out != [] && out[|out| - 1] == "*" {
        continue;
      }
      out := out + [segs[i]];
    }
    assert segs[..|segs|] == segs;
  }

  /** Collapsing leaves no two adjacent stars, and leaves such a list alone. */
  lemma {:induction false} CollapseCollapses(segs: Segs)
    ensures Collapsed(Collapse(segs))
    ensures segs != [] ==> Collapse(segs) != [] && Collapse(segs)[0] == segs[0]
    ensures forall s :: s in Collapse(segs) ==> s in segs
    decreases |segs|
  {
    if segs != [] { CollapseCollapses(segs[..|segs| - 1]); }
  }

  lemma {:induction false} CollapseIdle(segs: Segs)
    requires Collapsed(segs)
    ensures Collapse(segs) == segs
    decreases |segs|
  {
    if segs != [] {
      var init := segs[..|segs| - 1];
      forall i | 0 <= i < |init| - 1 ensures !(init[i] == "*" && init[i + 1] == "*") {
        assert !(segs[i] == "*" && segs[i + 1] == "*");
      }
      CollapseIdle(init);
      if |segs| > 1 { assert !(segs[|segs| - 2] == "*" && segs[|segs| - 2 + 1] == "*"); }
    }
  }

  /** One of two adjacent stars counts for nothing, so that collapsing is determined by this and
      by leaving collapsed lists alone. */
  lemma {:induction false} CollapseDouble(a: Segs, b: Segs)
    ensures Collapse(a + ["*", "*"] + b) == Collapse(a + ["*"] + b)
    decreases |b|
  {
    var two, one := a + ["*", "*"] + b, a + ["*"] + b;
    if b == [] {
      assert two[..|two| - 1] == a + ["*"] && one == a + ["*"] && two == a + ["*", "*"];
      assert one[..|one| - 1] == a;
    } else {
      var init := b[..|b| - 1];
      assert two[..|two| - 1] == a + ["*", "*"] + init && one[..|one| - 1] == a + ["*"] + init;
      CollapseDouble(a, init);
    }
  }

  // ----- parsing -----

  /** The segments of `body`, with `cur` read so far and `quoted` telling whether a quote
      is open. */
  function ParseBody(body: string, cur: string, quoted: bool): Segs
    decreases |body|
  {
    if body == "" then [cur]
    else if body[0] == '"' then ParseBody(body[1..], cur, !quoted)
    else if body[0] == '.' && !quoted then [cur] + ParseBody(body[1..], "", quoted)
    else ParseBody(body[1..], cur + [body[0]], quoted)
  }

  /** Whether the pattern is an exclusion, and its segments. */
  function Parse(pat: string): (bool, Segs) {
    if pat != "" && pat[0] == '!' then (true, ParseBody(pat[1..], "", false))
    else (false, ParseBody(pat, "", false))
  }

  method ParsePattern(pat: string) returns (exclude: bool, segs: Segs)
    ensures (exclude, segs) == Parse(pat)
  {
    exclude := pat != "" && pat[0] == '!';
    var body := if exclude then pat[1..] else pat;
    segs := [];
    var cur := "";
    var quoted := false;
    for i := 0 to |body|
      invariant segs + ParseBody(body[i..], cur, quoted) == ParseBody(body, "", false)
    {
      assert body[i..][1..] == body[i + 1..];
      if body[i] == '"' {
        quoted := !quoted;
      } else if body[i] == '.' && !quoted {
        assert segs + ([cur] + ParseBody(body[i + 1..], "", quoted))
            == segs + [cur] + ParseBody(body[i + 1..], "", quoted);
        segs, cur := segs + [cur], "";
      } else {
        cur := cur + [body[i]];
      }
    }
    assert body[|body|..] == "";
    segs := segs + [cur];
  }

  // ----- printing -----

  function PrintSeg(s: string): string {
    if s == "*" || s == "#" || !('.' in s || '"' in s) then s else "\"" + s + "\""
  }

  function Print(segs: Segs): string
    decreases |segs|
  {
    if segs == [] then "" else if |segs| == 1 then PrintSeg(segs[0])
    else PrintSeg(segs[0]) + "." + Print(segs[1..])
  }

  predicate NoQuotes(segs: Segs) { forall s | s in segs :: '"' !in s }

  /** Printed bare, the segment would be read as an exclusion mark. */
  predicate Banged(s: string) { s != "" && s[0] == '!' && '.' !in s && '"' !in s }

  lemma {:induction false} ParseChars(s: string, tail: string, cur: string, quoted: bool)
    requires '"' !in s && (quoted || '.' !in s)
    ensures ParseBody(s + tail, cur, quoted) == ParseBody(tail, cur + s, quoted)
    decreases |s|
  {
    if s == "" {
      assert s + tail == tail && cur + s == cur;
    } else {
      assert (s + tail)[1..] == s[1..] + tail;
      assert cur + [s[0]] + s[1..] == cur + s;
      assert forall c :: c in s[1..] ==> c in s;
      assert s[0] in s;
      ParseChars(s[1..], tail, cur + [s[0]], quoted);
    }
  }

  lemma ParsePrintedSeg(s: string, tail: string)
    requires '"' !in s
    ensures ParseBody(PrintSeg(s) + tail, "", false) == ParseBody(tail, s, false)
  {
    if '.' !in s {
      ParseChars(s, tail, "", false);
      assert "" + s == s;
    } else {
      var t := "\"" + tail;
      assert PrintSeg(s) + tail == "\"" + (s + t);
      assert ("\"" + (s + t))[1..] == s + t;
      ParseChars(s, t, "", true);
      assert "" + s == s;
      assert t[1..] == tail;
    }
  }

  lemma {:induction false} ParseBodyPrint(segs: Segs)
    requires segs != [] && NoQuotes(segs)
    ensures ParseBody(Print(segs), "", false) == segs
    decreases |segs|
  {
    assert segs[0] in segs;
    if |segs| == 1 {
      ParsePrintedSeg(segs[0], "");
      assert PrintSeg(segs[0]) + "" == PrintSeg(segs[0]);
      assert segs == [segs[0]];
    } else {
      var tail := "." + Print(segs[1..]);
      assert PrintSeg(segs[0]) + "." + Print(segs[1..]) == PrintSeg(segs[0]) + tail;
      ParsePrintedSeg(segs[0], tail);
      assert tail[1..] == Print(segs[1..]);
      assert forall s :: s in segs[1..] ==> s in segs;
      ParseBodyPrint(segs[1..]);
    }
  }

  lemma {:induction false} ParseBodyFacts(body: string, cur: string, quoted: bool)
    requires '"' !in cur
    ensures ParseBody(body, cur, quoted) != [] && NoQuotes(ParseBody(body, cur, quoted))
    decreases |body|
  {
    if body != "" {
      if body[0] == '"' {
        ParseBodyFacts(body[1..], cur, !quoted);
      } else if body[0] == '.' && !quoted {
        ParseBodyFacts(body[1..], "", quoted);
      } else {
        ParseBodyFacts(body[1..], cur + [body[0]], quoted);
      }
    }
  }

  /** Printing and reading back gives the same include exactly when there is a segment,
      no segment holds a quote, and the first would not be taken for an exclusion. */
  lemma RoundTripIff(segs: Segs)
    ensures Parse(Print(segs)) == (false, segs)
            <==> segs != [] && NoQuotes(segs) && !Banged(segs[0])
  {
    ParseBodyFacts(Print(segs), "", false);
    if segs != [] && NoQuotes(segs) {
      ParseBodyPrint(segs);
      assert segs[0] in segs;
      var p := PrintSeg(segs[0]);
      assert p != "" ==> Print(segs) != "" && Print(segs)[0] == p[0];
    }
  }
}
