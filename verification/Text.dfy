/** Whitespace handling of the voice helpers: Python's `str.strip`, `str.lstrip`
    and the notion of "the characters that matter". */
module Text {
  import Seqs

  /** Python's `str.isspace` for one character. */
  predicate IsSpace(c: char) {
    var n := c as int;
    || 9 <= n <= 13 || 28 <= n <= 32 || n == 133 || n == 160 || n == 5760
    || 8192 <= n <= 8202 || n == 8232 || n == 8233 || n == 8239 || n == 8287 || n == 12288
  }

  /** Tab to carriage return, the four separators, and Unicode's blanks, one by one. */
  lemma SpacesAre(c: char)
    ensures IsSpace(c) <==>
              || c in {'\t', '\n', '\U{B}', '\U{C}', '\r', '\U{1C}', '\U{1D}', '\U{1E}', '\U{1F}', ' '}
              || c in {'\U{85}', '\U{A0}', '\U{1680}', '\U{2028}', '\U{2029}', '\U{202F}', '\U{205F}', '\U{3000}'}
              || c in {'\U{2000}', '\U{2001}', '\U{2002}', '\U{2003}', '\U{2004}', '\U{2005}',
                       '\U{2006}', '\U{2007}', '\U{2008}', '\U{2009}', '\U{200A}'}
  {
  }

  predicate Blank(s: string) {
    forall i :: 0 <= i < |s| ==> IsSpace(s[i])
  }

  function LStrip(s: string): (r: string)
    ensures |r| <= |s|
  {
    if s != "" && IsSpace(s[0]) then LStrip(s[1..]) else s
  }

  function RStrip(s: string): (r: string)
    ensures |r| <= |s|
  {
    if s != "" && IsSpace(s[|s| - 1]) then RStrip(s[..|s| - 1]) else s
  }

  function Strip(s: string): string { RStrip(LStrip(s)) }

  lemma {:induction false} LStripSplits(s: string) returns (lead: string)
    ensures s == lead + LStrip(s) && Blank(lead)
    ensures LStrip(s) == "" || !IsSpace(LStrip(s)[0])
  {
    lead := "";
    if s != "" && IsSpace(s[0]) {
      lead := LStripSplits(s[1..]);
      lead := [s[0]] + lead;
    }
  }

  lemma {:induction false} RStripSplits(s: string) returns (trail: string)
    ensures s == RStrip(s) + trail && Blank(trail)
    ensures RStrip(s) == "" || !IsSpace(RStrip(s)[|RStrip(s)| - 1])
  {
    trail := "";
    if s != "" && IsSpace(s[|s| - 1]) {
      var n := |s| - 1;
      trail := RStripSplits(s[..n]);
      trail := trail + [s[n]];
    }
  }

  /** Stripping splits a text into whitespace, the stripped text, whitespace, and
      what is left is empty exactly when the text was blank. */
  lemma StripSplits(s: string) returns (lead: string, trail: string)
    ensures s == lead + Strip(s) + trail && Blank(lead) && Blank(trail)
    ensures Strip(s) == "" <==> Blank(s)
    ensures Blank(Strip(s)) ==> Strip(s) == ""
  {
    hide LStrip;
    hide RStrip;
    lead := LStripSplits(s);
    trail := RStripSplits(LStrip(s));
    var l, r := LStrip(s), Strip(s);
    assert l == "" || (s[|lead|] == l[0] && !IsSpace(s[|lead|]));
    assert l == r + trail;
    assert s == lead + l;
  }

  /** The non-whitespace characters of a text, in order. */
  function Solid(s: string): string {
    if s == "" then "" else (if IsSpace(s[0]) then "" else [s[0]]) + Solid(s[1..])
  }

  /** One character; with concatenation this is the whole function. */
  lemma SolidOne(c: char)
    ensures Solid([c]) == if IsSpace(c) then "" else [c]
  {
    assert [c][1..] == "";
  }

  lemma {:induction false} SolidConcat(a: string, b: string)
    ensures Solid(a + b) == Solid(a) + Solid(b)
  {
    if a == "" {
      assert a + b == b;
    } else {
      hide IsSpace;
      Seqs.TailConcat(a, b);
      SolidConcat(a[1..], b);
      Seqs.Assoc(if IsSpace(a[0]) then "" else [a[0]], Solid(a[1..]), Solid(b));
    }
  }

  lemma {:induction false} SolidOfBlank(s: string)
    requires Blank(s)
    ensures Solid(s) == ""
  {
    if s != "" {
      SolidOfBlank(s[1..]);
    }
  }
}
