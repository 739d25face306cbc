/** The slug rule of the navigation sidebar
    (src/Components/layout/Sidebar.jsx): an item's link ends in
    `name.toLowerCase().replace(/\s+/g, '-')`. */
module Slugify {

  /** The characters matched by `\s` in a JavaScript regular expression:
      the ECMAScript WhiteSpace and LineTerminator code points. */
  predicate IsSpace(c: char)
  {
    c == '\t' || c == '\n' || c == '\U{000B}' || c == '\U{000C}' || c == '\r'
    || c == ' ' || c == '\U{00A0}' || c == '\U{1680}'
    || ('\U{2000}' <= c <= '\U{200A}')
    || c == '\U{2028}' || c == '\U{2029}' || c == '\U{202F}' || c == '\U{205F}'
    || c == '\U{3000}' || c == '\U{FEFF}'
  }

  predicate IsUpper(c: char)
  {
    'A' <= c <= 'Z'
  }

  /** Lower-casing of one character (ASCII letters only). */
  function LowerChar(c: char): (r: char)
    ensures !IsUpper(r)
  {
    if IsUpper(c) then (c as int + 32) as char else c
  }

  /** `toLowerCase()`: position-wise lower-casing. */
  function Lower(s: string): string
  {
    seq(|s|, i requires 0 <= i < |s| => LowerChar(s[i]))
  }

  /** `replace(/\s+/g, '-')` as a left-to-right scan: the first
      whitespace character of a run emits one hyphen, the rest of the run
      emits nothing, and every other character is kept. `inRun` says
      whether the previous character was whitespace. */
  function Scan(s: string, inRun: bool): string
  {
    if s == [] then []
    else if IsSpace(s[0]) && inRun then Scan(s[1..], true)
    else if IsSpace(s[0]) then ['-'] + Scan(s[1..], true)
    else [s[0]] + Scan(s[1..], false)
  }

  function Collapse(s: string): string
  {
    Scan(s, false)
  }

  /** The slug of an item name. */
  function Slug(name: string): string
  {
    Collapse(Lower(name))
  }

  predicate NoSpace(s: string)
  {
    forall i :: 0 <= i < |s| ==> !IsSpace(s[i])
  }

  predicate NoUpper(s: string)
  {
    forall i :: 0 <= i < |s| ==> !IsUpper(s[i])
  }

  /** The scan emits no whitespace at all. */
  lemma {:induction false} ScanNoSpace(s: string, inRun: bool)
    ensures NoSpace(Scan(s, inRun))
  {
    if s != [] {
      ScanNoSpace(s[1..], IsSpace(s[0]));
    }
  }

  lemma CollapseNoSpace(s: string)
    ensures NoSpace(Collapse(s))
  {
    ScanNoSpace(s, false);
  }

  /** A string without whitespace is copied. */
  lemma {:induction false} ScanIdentity(s: string, inRun: bool)
    requires NoSpace(s)
    ensures Scan(s, inRun) == s
  {
    if s != [] {
      assert !IsSpace(s[0]);
      ScanIdentity(s[1..], false);
      assert s == [s[0]] + s[1..];
    }
  }

  lemma CollapseIdentity(s: string)
    requires NoSpace(s)
    ensures Collapse(s) == s
  {
    ScanIdentity(s, false);
  }

  /** The scan emits no upper-case letter if its input has none. */
  lemma {:induction false} ScanNoUpper(s: string, inRun: bool)
    requires NoUpper(s)
    ensures NoUpper(Scan(s, inRun))
  {
    if s != [] {
      ScanNoUpper(s[1..], IsSpace(s[0]));
    }
  }

  /** Lower-casing a lower-case string changes nothing. */
  lemma LowerIdentity(s: string)
    requires NoUpper(s)
    ensures Lower(s) == s
  {
  }

  /** A slug has no whitespace and no upper-case letters. */
  lemma SlugShape(name: string)
    ensures NoSpace(Slug(name)) && NoUpper(Slug(name))
  {
    CollapseNoSpace(Lower(name));
    ScanNoUpper(Lower(name), false);
  }

  /** Slugging a slug returns it unchanged. */
  lemma SlugIdempotent(name: string)
    ensures Slug(Slug(name)) == Slug(name)
  {
    var s := Slug(name);
    SlugShape(name);
    LowerIdentity(s);
    CollapseIdentity(s);
  }

  /** A name without whitespace maps to its lower-case form. */
  lemma SlugWithoutSpaces(name: string)
    requires NoSpace(name)
    ensures Slug(name) == Lower(name)
  {
    LowerNoSpace(name);
    CollapseIdentity(Lower(name));
  }

  predicate AllSpace(w: string)
  {
    forall i :: 0 <= i < |w| ==> IsSpace(w[i])
  }

  /** Whether the scan is inside a run of whitespace after reading `a`. */
  function RunAfter(a: string, inRun: bool): bool
  {
    if a == [] then inRun else IsSpace(a[|a| - 1])
  }

  /** The scan of a concatenation is the scan of the first part followed
      by the scan of the second, resumed in the state the first left. */
  lemma {:induction false} ScanAppend(a: string, b: string, inRun: bool)
    ensures Scan(a + b, inRun) == Scan(a, inRun) + Scan(b, RunAfter(a, inRun))
  {
    if a == [] {
      assert a + b == b;
    } else {
      var c, r := a[0], a[1..];
      assert (a + b)[0] == c;
      assert (a + b)[1..] == r + b;
      ScanAppend(r, b, IsSpace(c));
      assert RunAfter(r, IsSpace(c)) == RunAfter(a, inRun);
      if IsSpace(c) && inRun {
        assert Scan(a + b, inRun) == Scan(r + b, true);
      } else if IsSpace(c) {
        assert Scan(a + b, inRun) == ['-'] + Scan(r + b, true);
      } else {
        assert Scan(a + b, inRun) == [c] + Scan(r + b, false);
      }
    }
  }

  /** Text that starts with a non-space is scanned the same whatever came
      before it. */
  lemma ScanAfterText(b: string)
    requires b != [] && !IsSpace(b[0])
    ensures Scan(b, true) == Scan(b, false)
  {
  }

  /** Collapsing distributes over a split that does not cut a run of
      whitespace in two: nothing is trimmed or merged across the cut. */
  lemma CollapseAppend(a: string, b: string)
    requires a == [] || b == [] || !IsSpace(a[|a| - 1]) || !IsSpace(b[0])
    ensures Collapse(a + b) == Collapse(a) + Collapse(b)
  {
    ScanAppend(a, b, false);
    if b != [] && !IsSpace(b[0]) {
      ScanAfterText(b);
    }
  }

  /** A run of whitespace, inside text or not, collapses... */
  lemma {:induction false} ScanRun(w: string, inRun: bool)
    requires AllSpace(w)
    ensures Scan(w, inRun) == if w == [] || inRun then [] else "-"
  {
    if w != [] {
      ScanRun(w[1..], true);
    }
  }

  /** A non-empty run of whitespace on its own becomes exactly one hyphen. */
  lemma CollapseRun(w: string)
    requires |w| > 0 && AllSpace(w)
    ensures Collapse(w) == "-"
  {
    ScanRun(w, false);
  }


  /** Lower-casing works character by character, so it distributes over
      concatenation. */
  lemma LowerAppend(x: string, y: string)
    ensures Lower(x + y) == Lower(x) + Lower(y)
  {
    var l, r := Lower(x + y), Lower(x) + Lower(y);
    assert |l| == |r|;
    forall i | 0 <= i < |l| ensures l[i] == r[i] {
      if i < |x| {
        assert (x + y)[i] == x[i];
      } else {
        assert (x + y)[i] == y[i - |x|];
      }
    }
  }

  /** Lower-casing neither creates nor removes whitespace. */
  lemma LowerNoSpace(s: string)
    requires NoSpace(s)
    ensures NoSpace(Lower(s))
  {
    forall i | 0 <= i < |s| ensures !IsSpace(Lower(s)[i]) {
      assert !IsSpace(s[i]);
    }
  }

  /** Two words joined by one space slug to their lower-case forms joined
      by one hyphen: "Split Text" becomes "split-text". */
  lemma SlugTwoWords(a: string, b: string)
    requires NoSpace(a) && NoSpace(b)
    ensures Slug(a + [' '] + b) == Lower(a) + ['-'] + Lower(b)
  {
    var la, lb := Lower(a), Lower(b);
    var tail := [' '] + lb;
    assert Lower(a + [' '] + b) == la + tail by {
      LowerAppend(a + [' '], b);
      LowerAppend(a, [' ']);
      assert Lower([' ']) == [' '];
    }
    assert Collapse(la + tail) == la + (['-'] + lb) by {
      LowerNoSpace(a);
      LowerNoSpace(b);
      CollapseAppend(la, tail);
      CollapseAppend([' '], lb);
      CollapseRun([' ']);
      CollapseIdentity(la);
      CollapseIdentity(lb);
    }
  }

  /** The slug, like the collapse, distributes over a split that does not
      cut a run of whitespace in two. */
  lemma SlugAppend(a: string, b: string)
    requires a == [] || b == [] || !IsSpace(a[|a| - 1]) || !IsSpace(b[0])
    ensures Slug(a + b) == Slug(a) + Slug(b)
  {
    LowerAppend(a, b);
    assert a != [] ==> Lower(a)[|a| - 1] == LowerChar(a[|a| - 1]);
    assert b != [] ==> Lower(b)[0] == LowerChar(b[0]);
    CollapseAppend(Lower(a), Lower(b));
  }

  /** A non-whitespace character is only lower-cased. */
  lemma SlugChar(c: char)
    requires !IsSpace(c)
    ensures Slug([c]) == [LowerChar(c)]
  {
    assert Lower([c]) == [LowerChar(c)];
    assert Scan([LowerChar(c)], false) == [LowerChar(c)] + Scan([], false);
  }

  /** A non-empty run of whitespace becomes exactly one hyphen. */
  lemma SlugRun(w: string)
    requires |w| > 0 && AllSpace(w)
    ensures Slug(w) == "-"
  {
    assert Lower(w) == w;
    CollapseRun(w);
  }
}
