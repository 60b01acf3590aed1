/** Names, slugs and the search for a free slug. */
module Slugs {
  import opened Sequences

  // ---------------------------------------------------------------- names

  predicate Alnum(c: char) {
    'a' <= c <= 'z' || '0' <= c <= '9'
  }

  /** Runs of anything but lower-case letters and digits become one space, and the ends are trimmed. */
  function Collapse(text: string): (r: string)
    ensures forall i :: 0 <= i < |r| ==> Alnum(r[i]) || r[i] == ' '
  {
    if text == "" then ""
    else
      var r, c := Collapse(text[..|text| - 1]), text[|text| - 1];
      if Alnum(c) then
        if |text| >= 2 && !Alnum(text[|text| - 2]) && r != "" then r + [' ', c] else r + [c]
      else r
  }

  /** `fold` stands for the Unicode decomposition and case folding; it is given only by this law. */
  ghost predicate FoldLike(fold: string -> string) {
    forall text :: (forall i :: 0 <= i < |text| ==> Alnum(text[i]) || text[i] == ' ') ==> fold(text) == text
  }

  function NormalizeName(fold: string -> string, value: string): string {
    Collapse(fold(value))
  }

  /** Trimmed, and without two spaces in a row. */
  predicate Tidy(text: string) {
    && (forall i :: 0 <= i < |text| ==> Alnum(text[i]) || text[i] == ' ')
    && (text != "" ==> Alnum(text[0]) && Alnum(text[|text| - 1]))
    && (forall i :: 0 <= i < |text| - 1 ==> Alnum(text[i]) || Alnum(text[i + 1]))
  }

  lemma {:induction false} CollapseTidies(text: string)
    ensures Tidy(Collapse(text))
  {
    if text != "" { CollapseTidies(text[..|text| - 1]); }
  }

  lemma TidyEnd(text: string)
    requires text != ""
    ensures Tidy(text) ==> Alnum(text[|text| - 1])
    ensures Tidy("")
  {
  }

  lemma CollapseStep(text: string)
    requires text != ""
    ensures
      var n := |text| - 1;
      var r := Collapse(text[..n]);
      Collapse(text) ==
        if !Alnum(text[n]) then r
        else if n > 0 && !Alnum(text[n - 1]) && r != "" then r + [' ', text[n]]
        else r + [text[n]]
  {
  }

  /** A tidy text without its last character is tidy, or becomes so without one space more. */
  lemma TidyPrefix(text: string)
    requires Tidy(text) && text != ""
    ensures
      var n := |text| - 1;
      if Tidy(text[..n]) then n == 0 || Alnum(text[n - 1])
      else n > 1 && text[n - 1] == ' ' && text[..n][..n - 1] == text[..n - 1] && Tidy(text[..n - 1])
  {
    var n := |text| - 1;
    if n > 0 && !Alnum(text[n - 1]) {
      assert n > 1 && Alnum(text[n - 2]);
      assert text[..n][..n - 1] == text[..n - 1];
      assert Tidy(text[..n - 1]);
      assert !Alnum(text[..n][n - 1]);
    }
  }

  lemma {:induction false} CollapseKeepsTidy(text: string)
    requires Tidy(text) || (text != "" && text[|text| - 1] == ' ' && Tidy(text[..|text| - 1]))
    ensures Collapse(text) == if Tidy(text) then text else text[..|text| - 1]
  {
    if text != "" {
      hide Tidy, Collapse;
      var n := |text| - 1;
      assert text == text[..n] + [text[n]];
      TidyEnd(text);
      CollapseStep(text);
      if Tidy(text) { TidyPrefix(text); }
      CollapseKeepsTidy(text[..n]);
      if Tidy(text) && !Tidy(text[..n]) {
        assert text == text[..n - 1] + [' ', text[n]];
      }
    }
  }

  /** Normalising a normalised name changes nothing, whatever the folding does. */
  lemma NormalizeIdempotent(fold: string -> string, value: string)
    requires FoldLike(fold)
    ensures NormalizeName(fold, NormalizeName(fold, value)) == NormalizeName(fold, value)
    ensures Tidy(NormalizeName(fold, value))
  {
    var name := NormalizeName(fold, value);
    CollapseTidies(fold(value));
    assert fold(name) == name;
    CollapseKeepsTidy(name);
  }

  function Dashed(text: string): (r: string)
    ensures |r| == |text|
    ensures forall i :: 0 <= i < |text| ==> r[i] == if text[i] == ' ' then '-' else text[i]
  {
    seq(|text|, i requires 0 <= i < |text| => if text[i] == ' ' then '-' else text[i])
  }

  function Slugify(fold: string -> string, value: string): (slug: string)
    ensures 0 < |slug| <= 80
    ensures forall i :: 0 <= i < |slug| ==> Alnum(slug[i]) || slug[i] == '-'
  {
    var slug := Take(Dashed(NormalizeName(fold, value)), 80);
    if slug == "" then "organization" else slug
  }

  /** A slug reads as the normalised name, word for word up to eighty characters; a name without any has a stock slug. */
  lemma SlugReads(fold: string -> string, value: string)
    ensures
      var name, slug := NormalizeName(fold, value), Slugify(fold, value);
      && (name == "" ==> slug == "organization")
      && (name != "" ==>
            && |slug| == (if |name| < 80 then |name| else 80)
            && forall i :: 0 <= i < |slug| ==> slug[i] == if name[i] == ' ' then '-' else name[i])
  {
  }

  // ---------------------------------------------------------------- suffixes

  /** Decimal printing. */
  function Print(n: nat): (text: string)
    ensures text != ""
    ensures forall i :: 0 <= i < |text| ==> '0' <= text[i] <= '9'
  {
    if n < 10 then ['0' + n as char] else Print(n / 10) + ['0' + (n % 10) as char]
  }

  lemma {:induction false} PrintInjective(m: nat, n: nat)
    requires Print(m) == Print(n)
    ensures m == n
  {
    var a, b := Print(m), Print(n);
    assert a[|a| - 1] == b[|b| - 1];
    if m >= 10 && n >= 10 {
      assert Print(m / 10) == a[..|a| - 1] == b[..|b| - 1] == Print(n / 10);
      PrintInjective(m / 10, n / 10);
    }
  }

  function Suffixed(base: string, k: nat): string {
    Take(base, 70) + "-" + Print(k)
  }

  lemma SuffixedInjective(base: string, j: nat, k: nat)
    requires Suffixed(base, j) == Suffixed(base, k)
    ensures j == k
  {
    var head := Take(base, 70) + "-";
    assert Suffixed(base, j)[|head|..] == Print(j);
    assert Suffixed(base, k)[|head|..] == Print(k);
    PrintInjective(j, k);
  }

  // ---------------------------------------------------------------- the search

  /** The candidate after `suffix - 1` failures: the base itself, then the base with a number. */
  function Candidate(base: string, suffix: nat): string {
    if suffix == 1 then base else Suffixed(base, suffix)
  }

  ghost function Tried(base: string, suffix: nat): set<string> {
    set k | 2 <= k < suffix :: Suffixed(base, k)
  }

  /** Pairwise distinct suffixes make as many distinct slugs. */
  lemma {:induction false} TriedCount(base: string, suffix: nat)
    requires suffix >= 2
    ensures |Tried(base, suffix)| == suffix - 2
  {
    if suffix == 2 {
      assert Tried(base, 2) == {};
    } else {
      TriedCount(base, suffix - 1);
      var last := Suffixed(base, suffix - 1);
      assert Tried(base, suffix) == Tried(base, suffix - 1) + {last};
      if last in Tried(base, suffix - 1) {
        var k :| 2 <= k < suffix - 1 && Suffixed(base, k) == last;
        SuffixedInjective(base, k, suffix - 1);
        assert false;
      }
    }
  }

  /** A base that is itself a suffixed slug is tried twice, which is why the search may take one step more. */
  lemma BaseTriedTwice(head: string)
    requires |head| == 70
    ensures
      var base := head + "-2";
      Candidate(base, 1) == base && Candidate(base, 2) == base && Candidate(base, 3) != base
  {
    var base := head + "-2";
    assert Take(base, 70) == head;
    assert Print(2) == "2";
    assert Candidate(base, 2) == head + "-" + "2" == base;
    if Suffixed(base, 3) == Suffixed(base, 2) { SuffixedInjective(base, 3, 2); }
  }

  lemma Pigeonhole(small: set<string>, large: set<string>)
    requires small <= large
    ensures |small| <= |large|
  {
    if small != {} {
      var x :| x in small;
      Pigeonhole(small - {x}, large - {x});
    }
  }

  /**
    * The loop ends: it takes at most one step more than the table has slugs, and the slug it finds is the
    * first free candidate.
    */
  method FreeSlug(taken: set<string>, base: string) returns (slug: string, ghost suffix: nat)
    ensures slug !in taken
    ensures 1 <= suffix <= |taken| + 2 && slug == Candidate(base, suffix)
    ensures forall k :: 1 <= k < suffix ==> Candidate(base, k) in taken
  {
    slug := base;
    var n := 1;
    while slug in taken
      invariant n >= 1 && slug == Candidate(base, n)
      invariant forall k :: 1 <= k < n ==> Candidate(base, k) in taken
      invariant n >= 2 ==> Tried(base, n) <= taken && n - 2 <= |taken|
      decreases |taken| + 2 - n
    {
      if n >= 2 {
        assert Tried(base, n + 1) == Tried(base, n) + {slug};
        TriedCount(base, n + 1);
        Pigeonhole(Tried(base, n + 1), taken);
      } else {
        assert Tried(base, 2) == {};
      }
      n := n + 1;
      slug := Suffixed(base, n);
    }
    suffix := n;
  }

  // ---------------------------------------------------------------- signups

  /** The organisations' slugs, in order of creation. */
  class Orgs {
    var slugs: seq<string>

    constructor ()
      ensures slugs == []
    {
      slugs := [];
    }

    method Signup(fold: string -> string, name: string) returns (slug: string)
      requires Unique(slugs)
      modifies this
      ensures slugs == old(slugs) + [slug] && Unique(slugs)
      ensures exists suffix :: 1 <= suffix <= |old(slugs)| + 2 && slug == Candidate(Slugify(fold, name), suffix)
      ensures Slugify(fold, name) !in old(slugs) ==> slug == Slugify(fold, name)
    {
      ghost var suffix;
      var taken := Members(slugs);
      SetOfSeq(slugs);
      slug, suffix := FreeSlug(taken, Slugify(fold, name));
      assert suffix > 1 ==> Candidate(Slugify(fold, name), 1) in taken;
      slugs := slugs + [slug];
    }
  }

  function Members(slugs: seq<string>): set<string> {
    set slug <- slugs
  }

  predicate Unique(slugs: seq<string>) {
    forall i, j :: 0 <= i < j < |slugs| ==> slugs[i] != slugs[j]
  }

  lemma {:induction false} SetOfSeq(s: seq<string>)
    ensures |Members(s)| <= |s|
  {
    if s != [] {
      SetOfSeq(s[..|s| - 1]);
      assert Members(s) == Members(s[..|s| - 1]) + {s[|s| - 1]} by {
        assert s == s[..|s| - 1] + [s[|s| - 1]];
      }
    }
  }
}
