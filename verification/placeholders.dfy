/**
 * Text with `{{NAME}}` placeholders, and the substitution loop of the
 * SQLite storage layer (synapse/cores/sqlite.py) that fills them in.
 *
 * A flat text is a sequence of literal chunks and named holes.
 * `ReplaceAll` and `FindAll` model Python's `str.replace` and
 * `regex.findall('{{([A-Z]+)}}', ...)` on the rendered string, and the
 * lemmas here say what they do to it in terms of the holes: replacing
 * `{{a}}` fills the holes named `a`, and the pattern finds exactly the
 * all-capital names of the holes still open.
 */
module Placeholders {
  import opened Wrappers

  // ------------------------------------------------------------------
  // Text with holes

  predicate IsUpperChar(c: char) { 'A' <= c <= 'Z' }

  predicate IsNameChar(c: char) { IsUpperChar(c) || c == '_' }

  predicate IsUpper(s: string) { forall i :: 0 <= i < |s| ==> IsUpperChar(s[i]) }

  /** A placeholder name: a non-empty run of capitals and underscores. */
  predicate IsName(a: string) { |a| > 0 && forall i :: 0 <= i < |a| ==> IsNameChar(a[i]) }

  /** Text in which no `{` occurs, so no placeholder can begin inside it. */
  predicate Plain(s: string) { forall i :: 0 <= i < |s| ==> s[i] != '{' }

  lemma PlainAppend(a: string, b: string)
    requires Plain(a) && Plain(b)
    ensures Plain(a + b)
  {
    assert forall i :: 0 <= i < |a + b| ==> (a + b)[i] == if i < |a| then a[i] else b[i - |a|];
  }

  /** The placeholder `{{a}}`. */
  function Ph(a: string): string { "{{" + a + "}}" }

  lemma PhShape(a: string, b: string)
    ensures |Ph(a) + b| == |a| + 4 + |b|
    ensures (Ph(a) + b)[0] == '{' && (Ph(a) + b)[1] == '{'
    ensures forall i :: 0 <= i < |a| ==> (Ph(a) + b)[2 + i] == a[i]
    ensures (Ph(a) + b)[2 + |a|] == '}' && (Ph(a) + b)[3 + |a|] == '}'
    ensures (Ph(a) + b)[2..2 + |a|] == a
    ensures (Ph(a) + b)[4 + |a|..] == b
    ensures (Ph(a) + b)[1..][1..] == a + "}}" + b
  {
    var s := Ph(a) + b;
    assert s == "{{" + (a + ("}}" + b));
  }

  /** Literal text, or a hole for the placeholder named `a`. */
  datatype Chunk = Lit(s: string) | Hole(a: string)

  type Flat = seq<Chunk>

  /** Values already filled in for some placeholder names. */
  type Subst = map<string, string>

  predicate WellFormed(f: Flat)
  {
    forall i :: 0 <= i < |f| ==> (f[i].Lit? ==> Plain(f[i].s)) && (f[i].Hole? ==> IsName(f[i].a))
  }

  lemma WellFormedAppend(f: Flat, g: Flat)
    requires WellFormed(f) && WellFormed(g)
    ensures WellFormed(f + g)
  {
    assert forall i :: 0 <= i < |f + g| ==> (f + g)[i] == if i < |f| then f[i] else g[i - |f|];
  }

  predicate PlainSub(sub: Subst)
  {
    forall a :: a in sub ==> Plain(sub[a])
  }

  function Slot(a: string, sub: Subst): string
  {
    if a in sub then sub[a] else Ph(a)
  }

  function Fill(c: Chunk, sub: Subst): string
  {
    match c
    case Lit(s) => s
    case Hole(a) => Slot(a, sub)
  }

  /** The text of `f` with the holes named in `sub` filled in. */
  function FillIn(f: Flat, sub: Subst): string
    decreases |f|
  {
    if |f| == 0 then "" else Fill(f[0], sub) + FillIn(f[1..], sub)
  }

  predicate HoleIn(f: Flat, a: string)
  {
    exists i :: 0 <= i < |f| && f[i] == Hole(a)
  }

  lemma HoleCons(f: Flat, a: string)
    requires |f| > 0
    ensures HoleIn(f, a) <==> f[0] == Hole(a) || HoleIn(f[1..], a)
  {
    if HoleIn(f, a) {
      var i :| 0 <= i < |f| && f[i] == Hole(a);
      if i > 0 {
        assert f[1..][i - 1] == f[i];
      }
    }
    if HoleIn(f[1..], a) {
      var j :| 0 <= j < |f[1..]| && f[1..][j] == Hole(a);
      assert f[j + 1] == f[1..][j];
    }
  }

  lemma HoleAppend(f: Flat, g: Flat, a: string)
    ensures HoleIn(f + g, a) <==> HoleIn(f, a) || HoleIn(g, a)
  {
    if HoleIn(f + g, a) {
      var i :| 0 <= i < |f + g| && (f + g)[i] == Hole(a);
      if i >= |f| {
        assert g[i - |f|] == (f + g)[i];
      } else {
        assert f[i] == (f + g)[i];
      }
    }
    if HoleIn(f, a) {
      var i :| 0 <= i < |f| && f[i] == Hole(a);
      assert (f + g)[i] == f[i];
    }
    if HoleIn(g, a) {
      var i :| 0 <= i < |g| && g[i] == Hole(a);
      assert (f + g)[|f| + i] == g[i];
    }
  }

  // ------------------------------------------------------------------
  // Python's str.replace

  /**
   * `s.replace(pat, rep)`: every occurrence of `pat`, scanning from the
   * left and resuming after each one replaced.
   */
  function ReplaceAll(s: string, pat: string, rep: string): string
    requires |pat| > 0
    decreases |s|
  {
    if |s| < |pat| then s
    else if s[..|pat|] == pat then rep + ReplaceAll(s[|pat|..], pat, rep)
    else [s[0]] + ReplaceAll(s[1..], pat, rep)
  }

  lemma ReplaceStep(s: string, pat: string, rep: string)
    requires |pat| > 0 && |s| > 0
    requires |s| < |pat| || s[..|pat|] != pat
    ensures ReplaceAll(s, pat, rep) == [s[0]] + ReplaceAll(s[1..], pat, rep)
  {
    if |s| < |pat| {
      assert s == [s[0]] + s[1..];
    }
  }

  /** Text without a `{` passes through the replacement of a placeholder unchanged. */
  lemma {:induction false} ReplacePlain(x: string, b: string, pat: string, rep: string)
    requires |pat| > 0 && pat[0] == '{' && Plain(x)
    ensures ReplaceAll(x + b, pat, rep) == x + ReplaceAll(b, pat, rep)
    decreases |x|
  {
    if |x| == 0 {
      assert x + b == b;
    } else {
      var s := x + b;
      if |s| >= |pat| {
        assert s[..|pat|][0] == x[0];
      }
      ReplaceStep(s, pat, rep);
      assert s[1..] == x[1..] + b;
      ReplacePlain(x[1..], b, pat, rep);
      assert x == [x[0]] + x[1..];
    }
  }

  lemma ReplaceHit(b: string, pat: string, rep: string)
    requires |pat| > 0
    ensures ReplaceAll(pat + b, pat, rep) == rep + ReplaceAll(b, pat, rep)
  {
    var s := pat + b;
    assert s[..|pat|] == pat;
    assert s[|pat|..] == b;
  }

  /** The first index at which two different strings differ, or the shorter length. */
  function DiffAt(a: string, b: string): (r: nat)
    requires a != b
    ensures r <= |a| && r <= |b| && (r < |a| || r < |b|)
    ensures forall i :: 0 <= i < r ==> a[i] == b[i]
    ensures r < |a| && r < |b| ==> a[r] != b[r]
    decreases |a|
  {
    if |a| == 0 || |b| == 0 || a[0] != b[0] then 0
    else
      assert a == [a[0]] + a[1..] && b == [b[0]] + b[1..];
      1 + DiffAt(a[1..], b[1..])
  }

  /** The placeholder of one name never starts with the placeholder of another. */
  lemma PhDiffers(a: string, c: string, b: string)
    requires IsName(a) && IsName(c) && a != c
    ensures |Ph(a) + b| < |Ph(c)| || (Ph(a) + b)[..|Ph(c)|] != Ph(c)
  {
    var s, pat := Ph(a) + b, Ph(c);
    PhShape(a, b);
    PhShape(c, []);
    assert pat + [] == pat;
    if |s| >= |pat| {
      var r := DiffAt(a, c);
      assert s[..|pat|][2 + r] == s[2 + r];
    }
  }

  lemma ReplaceLead(ch: char, x: string, pat: string, rep: string)
    requires |pat| > 0
    requires |[ch] + x| < |pat| || ([ch] + x)[..|pat|] != pat
    ensures ReplaceAll([ch] + x, pat, rep) == [ch] + ReplaceAll(x, pat, rep)
  {
    assert ([ch] + x)[1..] == x;
  }

  /** `{{a}}` followed by `b`, one character at a time. */
  lemma PhSplit(a: string, b: string)
    ensures Ph(a) + b == ['{'] + (['{'] + ((a + "}}") + b))
  {
  }

  lemma ClosePlain(a: string)
    requires IsName(a)
    ensures Plain(a + "}}")
    ensures |a + "}}"| > 0 && (a + "}}")[0] == a[0]
  {
    assert forall i :: 0 <= i < |a + "}}"| ==> (a + "}}")[i] == if i < |a| then a[i] else '}';
  }

  lemma ReplaceMiss(a: string, c: string, b: string, rep: string)
    requires IsName(a) && IsName(c) && a != c
    ensures ReplaceAll(Ph(a) + b, Ph(c), rep) == Ph(a) + ReplaceAll(b, Ph(c), rep)
  {
    var pat := Ph(c);
    var x2 := (a + "}}") + b;
    var x1 := ['{'] + x2;
    PhSplit(a, b);
    PhSplit(a, ReplaceAll(b, pat, rep));
    assert |pat| == |c| + 4 && pat[1] == '{' by {
      PhShape(c, []);
      assert pat + [] == pat;
    }
    ClosePlain(a);
    PhDiffers(a, c, b);
    ReplaceLead('{', x1, pat, rep);
    assert |x1| < |pat| || x1[..|pat|] != pat by {
      if |x1| >= |pat| {
        assert x1[..|pat|][1] == x1[1];
      }
    }
    ReplaceLead('{', x2, pat, rep);
    ReplacePlain(a + "}}", b, pat, rep);
  }

  function Extend(sub: Subst, a: string, rep: string): Subst
  {
    if a in sub then sub else sub[a := rep]
  }

  lemma ExtendFacts(sub: Subst, a: string, rep: string)
    requires PlainSub(sub) && Plain(rep)
    ensures PlainSub(Extend(sub, a, rep))
    ensures forall x :: x in Extend(sub, a, rep) <==> x in sub || x == a
    ensures forall x :: x in Extend(sub, a, rep) ==> Extend(sub, a, rep)[x] == if x in sub then sub[x] else rep
  {
  }

  lemma ReplaceChunk(k: Chunk, sub: Subst, rest: string, a: string, rep: string)
    requires WellFormed([k]) && PlainSub(sub) && IsName(a)
    ensures ReplaceAll(Fill(k, sub) + rest, Ph(a), rep)
            == Fill(k, Extend(sub, a, rep)) + ReplaceAll(rest, Ph(a), rep)
  {
    var pat := Ph(a);
    PhShape(a, []);
    assert pat + [] == pat;
    assert [k][0] == k;
    match k
    case Lit(s) =>
      ReplacePlain(s, rest, pat, rep);
    case Hole(c) =>
      if c in sub {
        ReplacePlain(sub[c], rest, pat, rep);
      } else if c == a {
        ReplaceHit(rest, pat, rep);
      } else {
        ReplaceMiss(c, a, rest, rep);
      }
  }

  /**
   * Replacing `{{a}}` in the text fills in the holes named `a` and leaves
   * every other chunk as it was.
   */
  lemma {:induction false} ReplaceFill(f: Flat, sub: Subst, a: string, rep: string)
    requires WellFormed(f) && PlainSub(sub) && IsName(a)
    ensures ReplaceAll(FillIn(f, sub), Ph(a), rep) == FillIn(f, Extend(sub, a, rep))
    decreases |f|
  {
    if |f| > 0 {
      WellFormedTail(f);
      assert WellFormed([f[0]]);
      ReplaceChunk(f[0], sub, FillIn(f[1..], sub), a, rep);
      ReplaceFill(f[1..], sub, a, rep);
    }
  }

  // ------------------------------------------------------------------
  // regex.findall('{{([A-Z]+)}}', s)

  function UpperRun(s: string): (k: nat)
    ensures k <= |s|
    ensures forall i :: 0 <= i < k ==> IsUpperChar(s[i])
    ensures k == |s| || !IsUpperChar(s[k])
    decreases |s|
  {
    if |s| > 0 && IsUpperChar(s[0]) then 1 + UpperRun(s[1..]) else 0
  }

  /** The length of the name the pattern matches at the start of `s`, if it matches there. */
  function MatchAt(s: string): (r: Option<nat>)
    ensures r.Some? ==> 0 < r.value && 4 + r.value <= |s|
  {
    if |s| >= 2 && s[0] == '{' && s[1] == '{' then
      var k := UpperRun(s[2..]);
      if 0 < k && 4 + k <= |s| && s[2 + k] == '}' && s[3 + k] == '}' then Some(k) else None
    else None
  }

  /**
   * The names the pattern captures, left to right; after a match the scan
   * resumes behind it, otherwise one character further on.
   */
  function FindAll(s: string): seq<string>
    decreases |s|
  {
    if |s| == 0 then []
    else match MatchAt(s)
      case Some(k) => [s[2..2 + k]] + FindAll(s[4 + k..])
      case None => FindAll(s[1..])
  }

  lemma {:induction false} FindPlain(x: string, b: string)
    requires Plain(x)
    ensures FindAll(x + b) == FindAll(b)
    decreases |x|
  {
    if |x| == 0 {
      assert x + b == b;
    } else {
      var s := x + b;
      assert s[0] == x[0];
      assert s[1..] == x[1..] + b;
      FindPlain(x[1..], b);
    }
  }

  /** Where the pattern does not match at the first character, the scan moves one character on. */
  lemma FindLead(ch: char, x: string)
    requires MatchAt([ch] + x) == None
    ensures FindAll([ch] + x) == FindAll(x)
  {
    assert ([ch] + x)[1..] == x;
  }

  lemma {:induction false} UpperRunAt(a: string, c: string, b: string)
    requires IsUpper(a) && |c| > 0 && !IsUpperChar(c[0])
    ensures UpperRun((a + c) + b) == |a|
    decreases |a|
  {
    if |a| == 0 {
      assert (a + c) + b == c + b;
    } else {
      assert ((a + c) + b)[0] == a[0];
      assert ((a + c) + b)[1..] == (a[1..] + c) + b;
      UpperRunAt(a[1..], c, b);
    }
  }

  lemma FindPhUpper(a: string, b: string)
    requires IsName(a) && IsUpper(a)
    ensures FindAll(Ph(a) + b) == [a] + FindAll(b)
  {
    var s := Ph(a) + b;
    PhShape(a, b);
    assert UpperRun(s[2..]) == |a| by {
      PhSplit(a, b);
      assert s[2..] == (a + "}}") + b;
      UpperRunAt(a, "}}", b);
    }
    assert MatchAt(s) == Some(|a|);
  }

  lemma FindPhOther(a: string, b: string)
    requires IsName(a) && !IsUpper(a)
    ensures FindAll(Ph(a) + b) == FindAll(b)
  {
    var x2 := (a + "}}") + b;
    var x1 := ['{'] + x2;
    PhSplit(a, b);
    assert MatchAt(['{'] + x1) == None by {
      var s := ['{'] + x1;
      PhShape(a, b);
      var j :| 0 <= j < |a| && !IsUpperChar(a[j]);
      var k := UpperRun(s[2..]);
      assert s[2..][j] == a[j];
      assert k <= j;
      assert s[2 + k] == a[k];
    }
    FindLead('{', x1);
    ClosePlain(a);
    assert MatchAt(x1) == None by {
      assert x1[1] == a[0];
    }
    FindLead('{', x2);
    FindPlain(a + "}}", b);
  }

  /** A placeholder is found exactly when its name is all capitals. */
  lemma FindPh(a: string, b: string)
    requires IsName(a)
    ensures FindAll(Ph(a) + b) == (if IsUpper(a) then [a] else []) + FindAll(b)
  {
    if IsUpper(a) {
      FindPhUpper(a, b);
    } else {
      FindPhOther(a, b);
      assert [] + FindAll(b) == FindAll(b);
    }
  }

  /** The all-capital names of the holes not yet filled, in order of appearance. */
  function Pending(f: Flat, sub: Subst): seq<string>
    decreases |f|
  {
    if |f| == 0 then []
    else
      var here := if f[0].Hole? && f[0].a !in sub && IsUpper(f[0].a) then [f[0].a] else [];
      here + Pending(f[1..], sub)
  }

  /** The tail of a well-formed text is well formed, and its head is plain or a name. */
  lemma WellFormedTail(f: Flat)
    requires WellFormed(f) && |f| > 0
    ensures WellFormed(f[1..])
    ensures f[0].Lit? ==> Plain(f[0].s)
    ensures f[0].Hole? ==> IsName(f[0].a)
  {
    assert forall i :: 0 <= i < |f[1..]| ==> f[1..][i] == f[i + 1];
  }

  /** The pattern finds exactly the pending names. */
  lemma {:induction false} FindFill(f: Flat, sub: Subst)
    requires WellFormed(f) && PlainSub(sub)
    ensures FindAll(FillIn(f, sub)) == Pending(f, sub)
    decreases |f|
  {
    if |f| > 0 {
      var rest := FillIn(f[1..], sub);
      WellFormedTail(f);
      FindFill(f[1..], sub);
      match f[0]
      case Lit(s) =>
        FindPlain(s, rest);
      case Hole(a) =>
        if a in sub {
          FindPlain(sub[a], rest);
        } else {
          FindPh(a, rest);
        }
    }
  }

  lemma {:induction false} PendingIff(f: Flat, sub: Subst, a: string)
    ensures a in Pending(f, sub) <==> HoleIn(f, a) && a !in sub && IsUpper(a)
    decreases |f|
  {
    if |f| > 0 {
      HoleCons(f, a);
      PendingIff(f[1..], sub, a);
    }
  }

  /** Two substitutions that fill every hole of `f` alike give the same text. */
  lemma {:induction false} FillAgree(f: Flat, s1: Subst, s2: Subst)
    requires forall a :: HoleIn(f, a) ==> Slot(a, s1) == Slot(a, s2)
    ensures FillIn(f, s1) == FillIn(f, s2)
    decreases |f|
  {
    if |f| > 0 {
      forall a | HoleIn(f[1..], a) || f[0] == Hole(a)
        ensures Slot(a, s1) == Slot(a, s2)
      {
        HoleCons(f, a);
      }
      FillAgree(f[1..], s1, s2);
    }
  }

  /** Once every hole is filled with text free of `{`, no `{` is left. */
  lemma {:induction false} FillPlain(f: Flat, sub: Subst)
    requires WellFormed(f) && PlainSub(sub)
    requires forall a :: HoleIn(f, a) ==> a in sub
    ensures Plain(FillIn(f, sub))
    decreases |f|
  {
    if |f| > 0 {
      forall a | HoleIn(f[1..], a) || f[0] == Hole(a)
        ensures a in sub
      {
        HoleCons(f, a);
      }
      WellFormedTail(f);
      FillPlain(f[1..], sub);
      PlainAppend(Fill(f[0], sub), FillIn(f[1..], sub));
    }
  }

  // ------------------------------------------------------------------
  // The substitution loop of _prepQuery and _prepBlobQuery

  /** The variable token of a name, `_addVarDecor`. */
  function AddVarDecor(name: string): string { ":" + name }

  function LowerChar(c: char): char
  {
    if IsUpperChar(c) then (c as int + 32) as char else c
  }

  /** `str.lower` on ASCII text. */
  function Lower(s: string): string
  {
    seq(|s|, i requires 0 <= i < |s| => LowerChar(s[i]))
  }

  /** The variable token the loop writes for the placeholder named `a`. */
  function Decor(a: string): string { AddVarDecor(Lower(a)) }

  /**
   * The token of a name is `:` and the name in lower case, and contains no
   * `{`, so a later pass of the loop can never take it for a placeholder.
   */
  lemma DecorPlain(a: string)
    requires IsName(a)
    ensures Plain(Decor(a))
    ensures |Decor(a)| == |a| + 1 && Decor(a)[0] == ':'
    ensures forall i :: 0 <= i < |a| ==> Decor(a)[i + 1] == if IsUpperChar(a[i]) then (a[i] as int + 32) as char else a[i]
  {
    var l := Lower(a);
    assert forall i :: 0 <= i < |l| ==> l[i] != '{';
    assert Decor(a) == [':'] + l;
  }

  /** What `{{a}}` becomes once `sub0` has been applied and the loop has run. */
  function Decorated(a: string, sub0: Subst): string
  {
    if a in sub0 then sub0[a] else if IsUpper(a) then Decor(a) else Ph(a)
  }

  function Holes(f: Flat): set<string>
  {
    set i | 0 <= i < |f| && f[i].Hole? :: f[i].a
  }

  /**
   * The substitution `_prepQuery` amounts to on the holes of `f`: the names
   * of `sub0` take their value there, every other all-capital name becomes
   * its variable token, and any other name is left as a placeholder.
   */
  function Completion(f: Flat, sub0: Subst): Subst
  {
    map a | a in Holes(f) && (a in sub0 || IsUpper(a)) :: Decorated(a, sub0)
  }

  lemma CompletionSlots(f: Flat, sub0: Subst)
    ensures forall a :: HoleIn(f, a) ==> Slot(a, Completion(f, sub0)) == Decorated(a, sub0)
  {
    forall a | HoleIn(f, a)
      ensures Slot(a, Completion(f, sub0)) == Decorated(a, sub0)
    {
      var i :| 0 <= i < |f| && f[i] == Hole(a);
      assert a in Holes(f);
    }
  }

  /** The substitution after the loop has handled the names `ns`. */
  ghost function LoopSub(sub0: Subst, ns: seq<string>): Subst
    decreases |ns|
  {
    if |ns| == 0 then sub0
    else
      var last := ns[|ns| - 1];
      Extend(LoopSub(sub0, ns[..|ns| - 1]), last, Decor(last))
  }

  lemma {:induction false} LoopSubFacts(sub0: Subst, ns: seq<string>)
    requires PlainSub(sub0)
    requires forall i :: 0 <= i < |ns| ==> IsName(ns[i])
    ensures PlainSub(LoopSub(sub0, ns))
    ensures forall a :: a in LoopSub(sub0, ns) <==> a in sub0 || a in ns
    ensures forall a :: a in LoopSub(sub0, ns) ==> LoopSub(sub0, ns)[a] == if a in sub0 then sub0[a] else Decor(a)
    decreases |ns|
  {
    if |ns| > 0 {
      var init, last := ns[..|ns| - 1], ns[|ns| - 1];
      assert ns == init + [last];
      LoopSubFacts(sub0, init);
      DecorPlain(last);
      ExtendFacts(LoopSub(sub0, init), last, Decor(last));
    }
  }

  lemma PendingNames(f: Flat, sub0: Subst)
    requires WellFormed(f)
    ensures forall i :: 0 <= i < |Pending(f, sub0)| ==> IsName(Pending(f, sub0)[i])
  {
    var ns := Pending(f, sub0);
    forall i | 0 <= i < |ns|
      ensures IsName(ns[i])
    {
      assert ns[i] in ns;
      PendingIff(f, sub0, ns[i]);
      var i0 :| 0 <= i0 < |f| && f[i0] == Hole(ns[i]);
    }
  }

  /** Once the loop has handled every pending name, the text is the completion's. */
  lemma LoopSubComplete(f: Flat, sub0: Subst)
    requires WellFormed(f) && PlainSub(sub0)
    ensures FillIn(f, LoopSub(sub0, Pending(f, sub0))) == FillIn(f, Completion(f, sub0))
  {
    var ns := Pending(f, sub0);
    PendingNames(f, sub0);
    LoopSubFacts(sub0, ns);
    CompletionSlots(f, sub0);
    forall a | HoleIn(f, a)
      ensures Slot(a, LoopSub(sub0, ns)) == Slot(a, Completion(f, sub0))
    {
      PendingIff(f, sub0, a);
    }
    FillAgree(f, LoopSub(sub0, ns), Completion(f, sub0));
  }

  /** One pass of the loop turns the text for the first i names into the text for i + 1. */
  lemma DecorateStep(f: Flat, sub0: Subst, names: seq<string>, i: nat)
    requires WellFormed(f) && PlainSub(sub0) && i < |names|
    requires forall j :: 0 <= j < |names| ==> IsName(names[j])
    ensures ReplaceAll(FillIn(f, LoopSub(sub0, names[..i])), "{{" + names[i] + "}}", AddVarDecor(Lower(names[i])))
      == FillIn(f, LoopSub(sub0, names[..i + 1]))
  {
    LoopSubFacts(sub0, names[..i]);
    ReplaceFill(f, LoopSub(sub0, names[..i]), names[i], Decor(names[i]));
    assert names[..i + 1][..i] == names[..i];
  }

  /**
   * The loop shared by `_prepQuery` and `_prepBlobQuery`: for each name the
   * pattern finds, every `{{NAME}}` becomes `:name`.
   */
  method Decorate(query: string, ghost f: Flat, ghost sub0: Subst) returns (q: string)
    requires WellFormed(f) && PlainSub(sub0) && query == FillIn(f, sub0)
    ensures q == FillIn(f, Completion(f, sub0))
  {
    q := query;
    var names := FindAll(q);
    FindFill(f, sub0);
    PendingNames(f, sub0);
    for i := 0 to |names|
      invariant q == FillIn(f, LoopSub(sub0, names[..i]))
    {
      var name := names[i];
      DecorateStep(f, sub0, names, i);
      q := ReplaceAll(q, "{{" + name + "}}", AddVarDecor(Lower(name)));
    }
    assert names[..|names|] == names;
    LoopSubComplete(f, sub0);
  }

  /** No placeholder the pattern can see is left once every all-capital hole is filled. */
  lemma NothingPending(f: Flat, sub: Subst)
    requires WellFormed(f) && PlainSub(sub)
    requires forall a :: HoleIn(f, a) && IsUpper(a) ==> a in sub
    ensures FindAll(FillIn(f, sub)) == []
  {
    FindFill(f, sub);
    var p := Pending(f, sub);
    if |p| > 0 {
      PendingIff(f, sub, p[0]);
    }
  }

  lemma CompletionPlain(f: Flat, sub0: Subst)
    requires WellFormed(f) && PlainSub(sub0)
    ensures PlainSub(Completion(f, sub0))
    ensures forall a :: HoleIn(f, a) && (a in sub0 || IsUpper(a)) ==> a in Completion(f, sub0)
  {
    forall a | a in Completion(f, sub0)
      ensures Plain(Completion(f, sub0)[a])
    {
      var i :| 0 <= i < |f| && f[i].Hole? && f[i].a == a;
      if a !in sub0 {
        DecorPlain(a);
      }
    }
    forall a | HoleIn(f, a) && (a in sub0 || IsUpper(a))
      ensures a in Completion(f, sub0)
    {
      var i :| 0 <= i < |f| && f[i] == Hole(a);
      assert a in Holes(f);
    }
  }

  /**
   * Filling in the completion leaves no all-capital placeholder, and no
   * `{` when every hole is covered by the first substitution or is all
   * capitals.
   */
  lemma CompletionFacts(f: Flat, sub0: Subst)
    requires WellFormed(f) && PlainSub(sub0)
    ensures FindAll(FillIn(f, Completion(f, sub0))) == []
    ensures (forall a :: HoleIn(f, a) ==> a in sub0 || IsUpper(a)) ==> Plain(FillIn(f, Completion(f, sub0)))
  {
    CompletionPlain(f, sub0);
    NothingPending(f, Completion(f, sub0));
    if forall a :: HoleIn(f, a) ==> a in sub0 || IsUpper(a) {
      FillPlain(f, Completion(f, sub0));
    }
  }
}
