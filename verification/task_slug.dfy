/** `generateTaskId(title)`, shared verbatim by both roadmap pages: lower-case
    the title, turn every character outside [a-z0-9] into '-', collapse runs
    of '-' into one, and strip one '-' from each end. */
module TaskSlug {

  predicate IsAlnum(c: char) {
    ('a' <= c <= 'z') || ('0' <= c <= '9')
  }

  /** The characters a slug may contain. */
  predicate InAlphabet(s: string) {
    forall i :: 0 <= i < |s| ==> IsAlnum(s[i]) || s[i] == '-'
  }

  predicate NoDoubleDash(s: string) {
    forall i :: 0 <= i < |s| - 1 ==> !(s[i] == '-' && s[i + 1] == '-')
  }

  /** What every generated id looks like. */
  predicate IsSlug(s: string) {
    && InAlphabet(s)
    && NoDoubleDash(s)
    && (|s| > 0 ==> s[0] != '-' && s[|s| - 1] != '-')
  }

  /** The lower-case form of one character, as far as the slug can tell:
      ASCII capitals, KELVIN SIGN (whose lower case is 'k') and LATIN CAPITAL
      LETTER I WITH DOT ABOVE (lower case 'i' followed by a combining dot) are
      mapped; any other character is kept, since its lower case lies outside
      [a-z0-9] exactly when the character does. */
  function LowerChar(c: char): (r: string)
    ensures |r| >= 1
    ensures IsAlnum(c) || c == '-' ==> r == [c]
  {
    if 'A' <= c <= 'Z' then [(c as int + 32) as char]
    else if c == '\U{212A}' then "k"
    else if c == '\U{0130}' then "i\U{0307}"
    else [c]
  }

  /** A character `toLowerCase()` leaves as it is. */
  predicate LowerFixed(c: char) {
    LowerChar(c) == [c]
  }

  /** `toLowerCase()`, character by character: it never shortens the text.
      Which text it leaves alone, `LowerOfFixed` and `LowerOfAlphabet` say. */
  function Lower(s: string): (r: string)
    ensures |r| >= |s|
  {
    if |s| == 0 then ""
    else Lower(s[..|s| - 1]) + LowerChar(s[|s| - 1])
  }

  /** Text whose characters are all their own lower case is left as it is. */
  lemma {:induction false} LowerOfFixed(s: string)
    requires forall i :: 0 <= i < |s| ==> LowerFixed(s[i])
    ensures Lower(s) == s
  {
    if |s| > 0 {
      var init := s[..|s| - 1];
      assert forall i :: 0 <= i < |init| ==> LowerFixed(init[i]);
      LowerOfFixed(init);
      assert init + [s[|s| - 1]] == s;
    }
  }

  /** Text over [a-z0-9-] is already lower case. */
  lemma {:induction false} LowerOfAlphabet(s: string)
    requires InAlphabet(s)
    ensures Lower(s) == s
  {
    LowerOfFixed(s);
  }

  /** Lower-casing works on each piece of a concatenation separately. */
  lemma {:induction false} LowerConcat(a: string, b: string)
    ensures Lower(a + b) == Lower(a) + Lower(b)
  {
    if |b| > 0 {
      assert (a + b)[..|a + b| - 1] == a + b[..|b| - 1];
      LowerConcat(a, b[..|b| - 1]);
    } else {
      assert a + b == a;
    }
  }

  /** `replace(/[^a-z0-9]/g, '-')`. */
  function Dashes(s: string): (r: string)
    ensures |r| == |s| && InAlphabet(r)
    ensures forall i :: 0 <= i < |s| ==> (IsAlnum(s[i]) ==> r[i] == s[i]) && (!IsAlnum(s[i]) ==> r[i] == '-')
  {
    seq(|s|, i requires 0 <= i < |s| => if IsAlnum(s[i]) then s[i] else '-')
  }

  /** Dash replacement works on each piece of a concatenation separately. */
  lemma {:induction false} DashesConcat(a: string, b: string)
    ensures Dashes(a + b) == Dashes(a) + Dashes(b)
  {
    assert forall i :: 0 <= i < |a + b| ==> (a + b)[i] == if i < |a| then a[i] else b[i - |a|];
  }

  /** `replace(/-+/g, '-')`: a '-' right after a '-' is dropped. */
  function Collapse(s: string): (r: string)
    ensures |r| <= |s|
    ensures |s| > 0 ==> |r| > 0 && r[0] == s[0] && r[|r| - 1] == s[|s| - 1]
    ensures InAlphabet(s) ==> InAlphabet(r)
    ensures NoDoubleDash(r)
  {
    if |s| == 0 then ""
    else
      var init := Collapse(s[..|s| - 1]);
      assert InAlphabet(s) ==> InAlphabet(s[..|s| - 1]);
      if s[|s| - 1] == '-' && |s| >= 2 && s[|s| - 2] == '-' then init
      else init + [s[|s| - 1]]
  }

  /** Collapsing distributes over a join that does not put two '-' side by
      side: nothing is dropped across the seam. */
  lemma {:induction false} CollapseAppend(x: string, y: string)
    requires |x| > 0 && |y| > 0 && !(x[|x| - 1] == '-' && y[0] == '-')
    ensures Collapse(x + y) == Collapse(x) + Collapse(y)
    decreases |y|
  {
    var xy := x + y;
    var c := y[|y| - 1];
    assert xy[..|xy| - 1] == x + y[..|y| - 1];
    if |y| == 1 {
      assert y[..0] == "" && x + y[..0] == x;
      assert xy[|xy| - 2] == x[|x| - 1];
    } else {
      CollapseAppend(x, y[..|y| - 1]);
      assert xy[|xy| - 2] == y[|y| - 2];
    }
  }

  /** A run of '-', however long, becomes exactly one '-'. */
  lemma {:induction false} CollapseDashRun(d: string)
    requires |d| > 0 && forall i :: 0 <= i < |d| ==> d[i] == '-'
    ensures Collapse(d) == "-"
  {
    if |d| > 1 {
      CollapseDashRun(d[..|d| - 1]);
    } else {
      assert d[..0] == "";
    }
  }

  /** `replace(/^-|-$/g, '')`: one leading and one trailing '-' go. */
  function TrimDashes(s: string): (r: string)
    ensures |r| <= |s|
  {
    var a := if |s| > 0 && s[0] == '-' then 1 else 0;
    var b := if |s| > a && s[|s| - 1] == '-' then |s| - 1 else |s|;
    s[a..b]
  }

  /** Putting a '-' back at each end where `s` had one gives `s` again: at
      most one '-' goes from each end, and nothing else changes. */
  lemma {:induction false} TrimDashesRestores(s: string)
    ensures var front := if |s| > 0 && s[0] == '-' then "-" else "";
      var back := if |s| > |front| && s[|s| - 1] == '-' then "-" else "";
      s == front + TrimDashes(s) + back
  {
    var a := if |s| > 0 && s[0] == '-' then 1 else 0;
    var b := if |s| > a && s[|s| - 1] == '-' then |s| - 1 else |s|;
    assert s == s[..a] + s[a..b] + s[b..];
  }

  /** `generateTaskId(title)`: every generated id is a slug, with only
      [a-z0-9-], no "--" and no '-' at either end. */
  function GenerateTaskId(title: string): (r: string)
    ensures IsSlug(r)
  {
    var c := Collapse(Dashes(Lower(title)));
    TrimDashesMakesSlug(c);
    TrimDashes(c)
  }

  /** Trimming the end dashes of dash-collapsed text leaves a slug: once
      runs of '-' are single, one '-' at each end is all there is to strip. */
  lemma {:induction false} TrimDashesMakesSlug(c: string)
    requires InAlphabet(c) && NoDoubleDash(c)
    ensures IsSlug(TrimDashes(c))
  {
    var a := if |c| > 0 && c[0] == '-' then 1 else 0;
    var b := if |c| > a && c[|c| - 1] == '-' then |c| - 1 else |c|;
    var r := TrimDashes(c);
    assert r == c[a..b];
    assert InAlphabet(r) by {
      forall i | 0 <= i < |r|
        ensures IsAlnum(r[i]) || r[i] == '-'
      {
        assert r[i] == c[a + i];
      }
    }
    assert NoDoubleDash(r) by {
      forall i | 0 <= i < |r| - 1
        ensures !(r[i] == '-' && r[i + 1] == '-')
      {
        assert r[i] == c[a + i] && r[i + 1] == c[a + i + 1];
      }
    }
    if |r| > 0 {
      assert r[0] == c[a] && r[|r| - 1] == c[b - 1];
    }
  }

  // ---- idempotence ----

  lemma {:induction false} CollapseOfNoDoubleDash(s: string)
    requires NoDoubleDash(s)
    ensures Collapse(s) == s
  {
    if |s| > 0 {
      assert NoDoubleDash(s[..|s| - 1]);
      CollapseOfNoDoubleDash(s[..|s| - 1]);
      assert s[..|s| - 1] + [s[|s| - 1]] == s;
    }
  }

  /** Generating an id from an id gives it back: `generateTaskId` is
      idempotent. */
  lemma {:induction false} GenerateTaskIdIdempotent(title: string)
    ensures GenerateTaskId(GenerateTaskId(title)) == GenerateTaskId(title)
  {
    var s := GenerateTaskId(title);
    LowerOfAlphabet(s);
    assert Dashes(s) == s;
    CollapseOfNoDoubleDash(s);
    assert TrimDashes(s) == s[0..|s|];
  }

  // ---- words stay apart ----

  /** A character that separates words: not in [a-z0-9], and its own lower
      case (so `toLowerCase()` cannot turn it into a letter). */
  predicate IsSeparator(c: char) {
    !IsAlnum(c) && LowerFixed(c)
  }

  /** Two ids joined by any run of separators ("a" + " & " + "b") give the
      two ids with exactly one '-' between them: a run of non-alphanumeric
      characters between words becomes a single separator. */
  lemma {:induction false} GenerateTaskIdJoins(x: string, sep: string, y: string)
    requires IsSlug(x) && IsSlug(y) && |x| > 0 && |y| > 0
    requires |sep| > 0 && forall i :: 0 <= i < |sep| ==> IsSeparator(sep[i])
    ensures GenerateTaskId(x + sep + y) == x + "-" + y
  {
    var d := Dashes(sep);
    var j := x + "-" + y;
    assert Lower(x + sep + y) == x + sep + y by {
      LowerConcat(x + sep, y);
      LowerConcat(x, sep);
      LowerOfFixed(sep);
      LowerOfAlphabet(x);
      LowerOfAlphabet(y);
    }
    assert Dashes(x + sep + y) == x + d + y by {
      DashesOfJoin(x, sep, y);
    }
    assert Collapse(x + d + y) == j by {
      CollapseOfJoin(x, d, y);
    }
    assert TrimDashes(j) == j[0..|j|];
  }

  lemma {:induction false} DashesOfJoin(x: string, sep: string, y: string)
    requires InAlphabet(x) && InAlphabet(y)
    ensures Dashes(x + sep + y) == x + Dashes(sep) + y
  {
    DashesConcat(x + sep, y);
    DashesConcat(x, sep);
    assert Dashes(x) == x;
    assert Dashes(y) == y;
  }

  lemma {:induction false} CollapseOfJoin(x: string, d: string, y: string)
    requires IsSlug(x) && IsSlug(y) && |x| > 0 && |y| > 0
    requires |d| > 0 && forall i :: 0 <= i < |d| ==> d[i] == '-'
    ensures Collapse(x + d + y) == x + "-" + y
  {
    CollapseDashRun(d);
    CollapseOfNoDoubleDash(x);
    CollapseOfNoDoubleDash(y);
    CollapseAppend(x, d);
    CollapseAppend(x + d, y);
  }

  // ---- which characters survive ----

  /** The letters and digits of a string, in order. */
  function Alnums(s: string): (r: string)
    ensures |r| <= |s|
  {
    if |s| == 0 then ""
    else Alnums(s[..|s| - 1]) + (if IsAlnum(s[|s| - 1]) then [s[|s| - 1]] else "")
  }

  lemma {:induction false} AlnumsConcat(a: string, b: string)
    ensures Alnums(a + b) == Alnums(a) + Alnums(b)
  {
    if |b| > 0 {
      assert (a + b)[..|a + b| - 1] == a + b[..|b| - 1];
      AlnumsConcat(a, b[..|b| - 1]);
    } else {
      assert a + b == a;
    }
  }

  lemma {:induction false} AlnumsOfDashes(s: string)
    ensures Alnums(Dashes(s)) == Alnums(s)
  {
    if |s| > 0 {
      assert Dashes(s)[..|s| - 1] == Dashes(s[..|s| - 1]);
      AlnumsOfDashes(s[..|s| - 1]);
    }
  }

  /** The letters and digits of one character. */
  lemma {:induction false} AlnumsOfChar(c: char)
    ensures Alnums([c]) == if IsAlnum(c) then [c] else ""
  {
    assert [c][..0] == "";
  }

  lemma {:induction false} AlnumsOfCollapse(s: string)
    ensures Alnums(Collapse(s)) == Alnums(s)
  {
    if |s| > 0 {
      var init := s[..|s| - 1];
      var last := s[|s| - 1];
      AlnumsOfCollapse(init);
      assert Alnums(s) == Alnums(init) + (if IsAlnum(last) then [last] else "");
      if last == '-' && |s| >= 2 && s[|s| - 2] == '-' {
        assert Collapse(s) == Collapse(init);
      } else {
        assert Collapse(s) == Collapse(init) + [last];
        AlnumsConcat(Collapse(init), [last]);
        AlnumsOfChar(last);
      }
    }
  }

  lemma {:induction false} AlnumsDropFirstDash(s: string)
    requires |s| > 0 && s[0] == '-'
    ensures Alnums(s[1..]) == Alnums(s)
  {
    assert s == ['-'] + s[1..];
    AlnumsConcat(['-'], s[1..]);
    AlnumsOfChar('-');
  }

  lemma {:induction false} AlnumsOfTrimDashes(s: string)
    ensures Alnums(TrimDashes(s)) == Alnums(s)
  {
    var a := if |s| > 0 && s[0] == '-' then 1 else 0;
    var b := if |s| > a && s[|s| - 1] == '-' then |s| - 1 else |s|;
    var t := s[a..];
    assert Alnums(t) == Alnums(s) by {
      if a == 1 {
        AlnumsDropFirstDash(s);
      }
    }
    assert TrimDashes(s) == t[..b - a];
    if b < |s| {
      assert t[|t| - 1] == '-';
      assert Alnums(t) == Alnums(t[..|t| - 1]);
    } else {
      assert t[..b - a] == t;
    }
  }

  /** No letter or digit is lost or reordered: the letters and digits of the
      id are those of the lower-cased title, in order. */
  lemma {:induction false} GenerateTaskIdKeepsAlnums(title: string)
    ensures Alnums(GenerateTaskId(title)) == Alnums(Lower(title))
  {
    var l := Lower(title);
    AlnumsOfDashes(l);
    AlnumsOfCollapse(Dashes(l));
    AlnumsOfTrimDashes(Collapse(Dashes(l)));
  }

  lemma {:induction false} NoAlnumsIsDashes(s: string)
    requires InAlphabet(s) && Alnums(s) == ""
    ensures forall i :: 0 <= i < |s| ==> s[i] == '-'
  {
    if |s| > 0 {
      var init := s[..|s| - 1];
      assert InAlphabet(init);
      NoAlnumsIsDashes(init);
      assert forall i :: 0 <= i < |init| ==> s[i] == init[i];
    }
  }

  /** The id is empty exactly when the lower-cased title has no letter or
      digit in [a-z0-9]. */
  lemma {:induction false} GenerateTaskIdEmptyIff(title: string)
    ensures GenerateTaskId(title) == "" <==> Alnums(Lower(title)) == ""
  {
    var r := GenerateTaskId(title);
    GenerateTaskIdKeepsAlnums(title);
    if r != "" && Alnums(r) == "" {
      NoAlnumsIsDashes(r);
      assert false;
    }
  }

  /** A worked example for the reader: "a & b" becomes "a-b". */
  lemma {:induction false} GenerateTaskIdExample()
    ensures GenerateTaskId("a & b") == "a-b"
  {
    var sep := " & ";
    assert "a & b" == "a" + sep + "b";
    assert IsSeparator(sep[0]) && IsSeparator(sep[1]) && IsSeparator(sep[2]);
    GenerateTaskIdJoins("a", sep, "b");
  }


}
