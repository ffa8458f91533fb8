/**
 * The file name `main` derives from an article title (main.py, lines 44-45):
 * the first 60 characters of the title, without the characters that are not
 * word characters, whitespace or '-', stripped of surrounding whitespace and
 * lower-cased; then each run of whitespace in that is replaced by one '-'.
 *
 * Character classes are those of ASCII: `\w` is a letter, digit or '_', and
 * `\s` (also what `strip` removes) is one of the ASCII whitespace characters.
 */
module Slug {
  import opened Common

  /** At most this many characters of the title are used. */
  const MaxTitle: nat := 60

  /** `\w` on ASCII. */
  predicate IsWordChar(c: char) {
    ('a' <= c <= 'z') || ('A' <= c <= 'Z') || ('0' <= c <= '9') || c == '_'
  }

  /** `\s` on ASCII: tab, line feed, vertical tab, form feed, carriage return, the four separators, space. */
  predicate IsSpace(c: char) {
    ('\t' <= c <= '\r') || ('\U{1C}' <= c <= '\U{1F}') || c == ' '
  }

  /** The characters `[^\w\s-]` does not delete. */
  predicate IsKept(c: char) {
    IsWordChar(c) || IsSpace(c) || c == '-'
  }

  /** The characters a slug is made of: lower-case letters, digits, '_' and '-'. */
  predicate IsSlugChar(c: char) {
    ('a' <= c <= 'z') || ('0' <= c <= '9') || c == '_' || c == '-'
  }

  predicate NoSpace(s: string) {
    forall i :: 0 <= i < |s| ==> !IsSpace(s[i])
  }

  // ---------------------------------------------------------------------------
  // The four transformations

  /** `re.sub(r"[^\w\s-]", "", s)`: deletes every other character and keeps the rest in order. */
  function DeleteUnsafe(s: string): (r: string)
    ensures |r| <= |s|
    ensures forall i :: 0 <= i < |r| ==> IsKept(r[i])
    ensures forall c :: c in r <==> c in s && IsKept(c)
    ensures (forall i :: 0 <= i < |s| ==> IsKept(s[i])) ==> r == s
  {
    if s == [] then []
    else
      var rest := DeleteUnsafe(s[1..]);
      assert forall c :: c in s <==> c == s[0] || c in s[1..];
      (if IsKept(s[0]) then [s[0]] else []) + rest
  }

  /** `lstrip()`: drops the leading whitespace. */
  function TrimStart(s: string): (r: string)
    ensures |r| <= |s| && r == s[|s| - |r|..]
    ensures r == [] || !IsSpace(r[0])
    ensures forall i :: 0 <= i < |s| - |r| ==> IsSpace(s[i])
    ensures s != [] && IsSpace(s[0]) ==> |r| < |s|
  {
    if s != [] && IsSpace(s[0]) then TrimStart(s[1..]) else s
  }

  /** `rstrip()`: drops the trailing whitespace. */
  function TrimEnd(s: string): (r: string)
    ensures r <= s
    ensures r == [] || !IsSpace(r[|r| - 1])
    ensures forall i :: |r| <= i < |s| ==> IsSpace(s[i])
  {
    if s != [] && IsSpace(s[|s| - 1]) then TrimEnd(s[..|s| - 1]) else s
  }

  /**
   * `strip()`: TrimEnd after TrimStart. The result has no whitespace at either
   * end, every character of it comes from s, and a string that already has
   * none at either end is returned unchanged.
   */
  function Strip(s: string): (r: string)
    ensures |r| <= |s|
    ensures r == [] || (!IsSpace(r[0]) && !IsSpace(r[|r| - 1]))
    ensures forall c :: c in r ==> c in s
    ensures s == [] || (!IsSpace(s[0]) && !IsSpace(s[|s| - 1])) ==> r == s
  {
    var t := TrimStart(s);
    assert forall c :: c in t ==> c in s by {
      assert t == s[|s| - |t|..];
    }
    TrimEnd(t)
  }

  /** `re.sub(r"\s+", "-", s)`: every maximal run of whitespace becomes one '-'. */
  function Hyphenate(s: string): string
    decreases |s|
  {
    if s == [] then []
    else if IsSpace(s[0]) then "-" + Hyphenate(TrimStart(s))
    else [s[0]] + Hyphenate(s[1..])
  }

  /**
   * Hyphenate leaves no whitespace, never lengthens the text and introduces
   * no character other than '-'.
   */
  lemma {:induction false} HyphenateShape(s: string)
    ensures |Hyphenate(s)| <= |s|
    ensures NoSpace(Hyphenate(s))
    ensures forall i :: 0 <= i < |Hyphenate(s)| ==> Hyphenate(s)[i] == '-' || Hyphenate(s)[i] in s
    decreases |s|
  {
    if s != [] {
      var rest := if IsSpace(s[0]) then TrimStart(s) else s[1..];
      var head := if IsSpace(s[0]) then "-" else [s[0]];
      assert Hyphenate(s) == head + Hyphenate(rest);
      HyphenateShape(rest);
      assert rest == s[|s| - |rest|..];
    }
  }

  /** The title with unsafe characters deleted, stripped and lower-cased: what Hyphenate is applied to. */
  function Cleaned(title: string): string {
    Lower(Strip(DeleteUnsafe(Take(title, MaxTitle))))
  }

  /** Every character of the cleaned title is one `[^\w\s-]` keeps, and none is upper-case. */
  lemma CleanedChars(title: string)
    ensures forall c :: c in Cleaned(title) ==> IsKept(c) && !IsUpper(c)
  {
    var stripped := Strip(DeleteUnsafe(Take(title, MaxTitle)));
    forall c | c in Cleaned(title)
      ensures IsKept(c) && !IsUpper(c)
    {
      var i :| 0 <= i < |stripped| && Cleaned(title)[i] == c;
      assert stripped[i] in stripped;
    }
  }

  /** The slug of a title. */
  function Slug(title: string): (slug: string)
    ensures |slug| <= MaxTitle && |slug| <= |title|
    ensures forall i :: 0 <= i < |slug| ==> IsSlugChar(slug[i])
  {
    CleanedChars(title);
    HyphenateShape(Cleaned(title));
    Hyphenate(Cleaned(title))
  }

  // ---------------------------------------------------------------------------
  // Properties

  /** Hyphenate leaves a string without whitespace unchanged. */
  lemma {:induction false} HyphenateNoSpace(s: string)
    requires NoSpace(s)
    ensures Hyphenate(s) == s
    decreases |s|
  {
    if s != [] {
      HyphenateNoSpace(s[1..]);
    }
  }

  /**
   * Hyphenate maps the two ends as they are unless they are whitespace: its
   * first and last characters are '-' only when those of its input are
   * whitespace or '-'.
   */
  lemma {:induction false} HyphenateEnds(s: string)
    requires s != []
    ensures Hyphenate(s) != []
    ensures !IsSpace(s[0]) ==> Hyphenate(s)[0] == s[0]
    ensures !IsSpace(s[|s| - 1]) ==> Hyphenate(s)[|Hyphenate(s)| - 1] == s[|s| - 1]
    decreases |s|
  {
    if IsSpace(s[0]) {
      var t := TrimStart(s);
      assert Hyphenate(s) == "-" + Hyphenate(t);
      if t != [] {
        HyphenateEnds(t);
        assert t[|t| - 1] == s[|s| - 1];
      }
    } else {
      var rest := s[1..];
      assert Hyphenate(s) == [s[0]] + Hyphenate(rest);
      if rest != [] {
        HyphenateEnds(rest);
        assert rest[|rest| - 1] == s[|s| - 1];
      }
    }
  }

  /** The deletion keeps the order and the count of what it keeps: it distributes over concatenation. */
  lemma {:induction false} DeleteUnsafeAppend(a: string, b: string)
    ensures DeleteUnsafe(a + b) == DeleteUnsafe(a) + DeleteUnsafe(b)
    decreases |a|
  {
    if a == [] {
      assert a + b == b;
    } else {
      assert (a + b)[1..] == a[1..] + b;
      DeleteUnsafeAppend(a[1..], b);
    }
  }

  /**
   * `strip()` returns a contiguous middle part of s: what lies before it and
   * what lies after it is whitespace.
   */
  lemma StripMiddle(s: string)
    ensures exists i, j ::
      && 0 <= i <= j <= |s| && Strip(s) == s[i..j]
      && (forall k :: 0 <= k < i ==> IsSpace(s[k]))
      && (forall k :: j <= k < |s| ==> IsSpace(s[k]))
  {
    var t := TrimStart(s);
    var r := TrimEnd(t);
    var i := |s| - |t|;
    TrimEndPrefix(t);
    TrimEndTail(t);
    MiddleSlice(s, t, r, i);
    assert Strip(s) == r;
  }

  /**
   * If t is s after its first i characters, and r is t before a tail of
   * whitespace, then r is the slice of s from i, followed in s by that
   * whitespace only.
   */
  lemma MiddleSlice(s: string, t: string, r: string, i: nat)
    requires i <= |s| && t == s[i..]
    requires |r| <= |t| && r == t[..|r|]
    requires forall k :: |r| <= k < |t| ==> IsSpace(t[k])
    ensures i + |r| <= |s| && r == s[i..i + |r|]
    ensures forall k :: i + |r| <= k < |s| ==> IsSpace(s[k])
  {
    forall k | i + |r| <= k < |s|
      ensures IsSpace(s[k])
    {
      assert s[k] == t[k - i];
    }
  }

  lemma TrimEndPrefix(t: string)
    ensures TrimEnd(t) == t[..|TrimEnd(t)|]
  {
  }

  lemma TrimEndTail(t: string)
    ensures forall k :: |TrimEnd(t)| <= k < |t| ==> IsSpace(t[k])
  {
  }

  /** After leading whitespace is dropped from a + b, what remains of a, if anything, is followed by b. */
  lemma {:induction false} TrimStartAppend(a: string, b: string)
    ensures TrimStart(a) != [] ==> TrimStart(a + b) == TrimStart(a) + b
    ensures TrimStart(a) == [] ==> TrimStart(a + b) == TrimStart(b)
    decreases |a|
  {
    if a == [] {
      assert a + b == b;
    } else if IsSpace(a[0]) {
      var ab := a + b;
      assert ab[0] == a[0] && ab[1..] == a[1..] + b;
      assert TrimStart(ab) == TrimStart(ab[1..]);
      assert TrimStart(a) == TrimStart(a[1..]);
      TrimStartAppend(a[1..], b);
    } else {
      assert (a + b)[0] == a[0];
    }
  }

  /** A whitespace run at the front becomes one '-'. */
  lemma HyphenateSpace(s: string)
    requires s != [] && IsSpace(s[0])
    ensures Hyphenate(s) == "-" + Hyphenate(TrimStart(s))
  {
  }

  /** Any other first character is kept. */
  lemma HyphenateWord(s: string)
    requires s != [] && !IsSpace(s[0])
    ensures Hyphenate(s) == [s[0]] + Hyphenate(s[1..])
  {
  }

  /** A string of whitespace only is dropped whole by TrimStart. */
  lemma TrimStartSpaces(w: string)
    requires forall i :: 0 <= i < |w| ==> IsSpace(w[i])
    ensures TrimStart(w) == []
  {
  }

  /** When TrimStart drops everything, everything was whitespace. */
  lemma TrimStartEmpty(s: string)
    requires TrimStart(s) == []
    ensures forall i :: 0 <= i < |s| ==> IsSpace(s[i])
  {
  }

  /**
   * Hyphenate works piece by piece: a split that does not fall inside a
   * whitespace run can be hyphenated on each side separately.
   */
  lemma {:induction false} HyphenateAppend(a: string, b: string)
    requires a == [] || b == [] || !IsSpace(a[|a| - 1]) || !IsSpace(b[0])
    ensures Hyphenate(a + b) == Hyphenate(a) + Hyphenate(b)
    decreases |a|
  {
    if a == [] {
      assert a + b == b;
    } else if IsSpace(a[0]) {
      var t := TrimStart(a);
      if t == [] {
        TrimStartEmpty(a);
      } else {
        assert t[|t| - 1] == a[|a| - 1] by {
          assert t == a[|a| - |t|..];
        }
        HyphenateAppend(t, b);
      }
      HyphenateAppendSpace(a, b);
    } else {
      if a[1..] != [] {
        assert a[1..][|a[1..]| - 1] == a[|a| - 1];
      }
      HyphenateAppend(a[1..], b);
      HyphenateAppendWord(a, b);
    }
  }

  /** The step of HyphenateAppend for a text that starts with whitespace. */
  lemma HyphenateAppendSpace(a: string, b: string)
    requires a != [] && IsSpace(a[0])
    requires TrimStart(a) == [] ==> b == [] || !IsSpace(b[0])
    requires TrimStart(a) != [] ==>
      Hyphenate(TrimStart(a) + b) == Hyphenate(TrimStart(a)) + Hyphenate(b)
    ensures Hyphenate(a + b) == Hyphenate(a) + Hyphenate(b)
  {
    var ab := a + b;
    assert ab[0] == a[0];
    TrimStartAppend(a, b);
    HyphenateSpace(ab);
    HyphenateSpace(a);
    var t := TrimStart(a);
    if t == [] {
      assert TrimStart(ab) == b by {
        assert TrimStart(b) == b;
      }
      assert Hyphenate(a) == "-" by {
        assert Hyphenate(t) == [];
      }
    } else {
      assert TrimStart(ab) == t + b;
      Assoc("-", Hyphenate(t), Hyphenate(b));
    }
  }

  /** The step of HyphenateAppend for a text that starts with another character. */
  lemma HyphenateAppendWord(a: string, b: string)
    requires a != [] && !IsSpace(a[0])
    requires Hyphenate(a[1..] + b) == Hyphenate(a[1..]) + Hyphenate(b)
    ensures Hyphenate(a + b) == Hyphenate(a) + Hyphenate(b)
  {
    var ab := a + b;
    assert ab[0] == a[0] && ab[1..] == a[1..] + b;
    HyphenateWord(ab);
    HyphenateWord(a);
    Assoc([a[0]], Hyphenate(a[1..]), Hyphenate(b));
  }

  /**
   * `re.sub(r"\s+", "-", s)` on a maximal whitespace run: the whole run,
   * however long, becomes exactly one '-', and the text on either side is
   * hyphenated on its own.
   */
  lemma HyphenateRun(a: string, w: string, b: string)
    requires a == [] || !IsSpace(a[|a| - 1])
    requires w != [] && forall i :: 0 <= i < |w| ==> IsSpace(w[i])
    requires b == [] || !IsSpace(b[0])
    ensures Hyphenate(a + w + b) == Hyphenate(a) + "-" + Hyphenate(b)
  {
    Assoc(a, w, b);
    HyphenateAppend(a, w + b);
    HyphenateLeadingRun(w, b);
    Assoc(Hyphenate(a), "-", Hyphenate(b));
  }

  /** A whitespace run at the front, however long, becomes one '-'. */
  lemma HyphenateLeadingRun(w: string, b: string)
    requires w != [] && forall i :: 0 <= i < |w| ==> IsSpace(w[i])
    requires b == [] || !IsSpace(b[0])
    ensures Hyphenate(w + b) == "-" + Hyphenate(b)
  {
    var wb := w + b;
    assert wb[0] == w[0];
    HyphenateSpace(wb);
    TrimStartSpaces(w);
    TrimStartAppend(w, b);
    assert TrimStart(b) == b;
  }

  /** The cleaned title, being stripped, has no whitespace at either end. */
  lemma CleanedEnds(title: string)
    ensures var c := Cleaned(title); c == [] || (!IsSpace(c[0]) && !IsSpace(c[|c| - 1]))
  {
    var stripped := Strip(DeleteUnsafe(Take(title, MaxTitle)));
    var c := Cleaned(title);
    assert c == Lower(stripped);
    if c != [] {
      assert c[0] == LowerChar(stripped[0]);
      assert c[|c| - 1] == LowerChar(stripped[|stripped| - 1]);
    }
  }

  /** Hyphenating a string without whitespace at its ends keeps its end characters. */
  lemma HyphenateStripped(s: string)
    requires s == [] || (!IsSpace(s[0]) && !IsSpace(s[|s| - 1]))
    ensures Hyphenate(s) == [] <==> s == []
    ensures Hyphenate(s) != [] ==>
      Hyphenate(s)[0] == s[0] && Hyphenate(s)[|Hyphenate(s)| - 1] == s[|s| - 1]
  {
    if s != [] {
      HyphenateEnds(s);
    }
  }

  /**
   * The slug has no hyphen made from leading or trailing whitespace: it starts
   * (ends) with '-' only when the cleaned title, which is already stripped,
   * starts (ends) with a '-' of its own.
   */
  lemma SlugEnds(title: string)
    ensures Slug(title) == [] <==> Cleaned(title) == []
    ensures Slug(title) != [] && Slug(title)[0] == '-' ==> Cleaned(title)[0] == '-'
    ensures Slug(title) != [] && Slug(title)[|Slug(title)| - 1] == '-' ==>
      Cleaned(title)[|Cleaned(title)| - 1] == '-'
  {
    CleanedEnds(title);
    HyphenateStripped(Cleaned(title));
  }

  /** A string of at most MaxTitle slug characters is its own slug. */
  lemma SlugFixed(s: string)
    requires |s| <= MaxTitle && forall i :: 0 <= i < |s| ==> IsSlugChar(s[i])
    ensures Slug(s) == s
  {
    assert Take(s, MaxTitle) == s;
    assert DeleteUnsafe(s) == s by {
      assert forall i :: 0 <= i < |s| ==> IsKept(s[i]);
    }
    assert Strip(s) == s;
    assert Lower(s) == s by {
      LowerUnchanged(s);
    }
    HyphenateNoSpace(s);
  }

  /** Applying the transformation to a slug gives the same slug. */
  lemma SlugIdempotent(title: string)
    ensures Slug(Slug(title)) == Slug(title)
  {
    SlugFixed(Slug(title));
  }
}
