/** Searching for a name not yet in use: application names (`092_intune_apps.py`) and proxy
    slugs (`051_acme_proxy_slug.py`). Both add a growing decimal suffix until a name is free. */
module FreshNames {
  import opened Prelude
  import opened Decimal

  // ---- Pigeonhole --------------------------------------------------------------------

  ghost predicate Distinct(candidate: nat -> string) {
    forall i, j | 2 <= i < j :: candidate(i) != candidate(j)
  }

  /** The candidates numbered 2 up to `n`, exclusive. */
  ghost function Tried(candidate: nat -> string, n: nat): set<string> {
    set k: nat | 2 <= k < n :: candidate(k)
  }

  lemma {:induction false} TriedSize(candidate: nat -> string, n: nat)
    requires Distinct(candidate) && n >= 2
    ensures |Tried(candidate, n)| == n - 2
  {
    if n == 2 {
      assert Tried(candidate, n) == {};
    } else {
      TriedSize(candidate, n - 1);
      assert Tried(candidate, n) == Tried(candidate, n - 1) + {candidate(n - 1)};
      assert candidate(n - 1) !in Tried(candidate, n - 1);
    }
  }

  /** Distinct candidates that are all in use cannot outnumber the names in use. */
  lemma Pigeonhole(candidate: nat -> string, n: nat, used: set<string>)
    requires Distinct(candidate) && n >= 2 && forall k: nat | 2 <= k < n :: candidate(k) in used
    ensures n - 2 <= |used|
  {
    TriedSize(candidate, n);
    SubsetSize(Tried(candidate, n), used);
  }

  /** `n` names the first free candidate: `first` counts as candidate 1. */
  ghost predicate FirstFree(first: string, candidate: nat -> string, used: set<string>, n: nat, name: string) {
    && n >= 1
    && name == (if n == 1 then first else candidate(n))
    && name !in used
    && (n > 1 ==> first in used)
    && forall k: nat | 2 <= k < n :: candidate(k) in used
  }

  /** Some candidate numbered below `bound` is free. */
  ghost predicate FreeBelow(candidate: nat -> string, used: set<string>, bound: nat) {
    exists k: nat | 2 <= k < bound :: candidate(k) !in used
  }

  /** The name found is short exactly when the first name, or a candidate with a short number, is
      free: a condition on the names in use alone. Few names in use are enough for it. */
  lemma FoundFitsIff(first: string, candidate: nat -> string, used: set<string>, n: nat, name: string,
                     limit: int, bound: nat)
    requires FirstFree(first, candidate, used, n, name) && n <= |used| + 2 && |first| <= limit
    requires forall k: nat | k >= 2 :: |candidate(k)| <= limit <==> k < bound
    ensures |name| <= limit <==> first !in used || FreeBelow(candidate, used, bound)
    ensures |used| + 2 < bound ==> |name| <= limit
  {
    if n > 1 && FreeBelow(candidate, used, bound) {
      var k: nat :| 2 <= k < bound && candidate(k) !in used;
      assert k >= n;
    }
  }

  // ---- Application names --------------------------------------------------------------

  const NAME_LIMIT: int := 100

  /** `s[:k]` as Python reads it: a negative bound counts from the end. */
  function PyTake(s: string, k: int): (r: string)
    ensures |r| <= |s| && r == s[..|r|]
    ensures k >= 0 ==> |r| <= k
    ensures s != [] && k > 0 ==> r != []
  {
    if k >= |s| then s
    else if k >= 0 then s[..k]
    else if |s| + k >= 0 then s[..|s| + k]
    else []
  }

  function AppName(wanted: string, n: nat): string {
    var suffix := " (" + Digits(n) + ")";
    PyTake(wanted, NAME_LIMIT - |suffix|) + suffix
  }

  function AppNames(wanted: string): nat -> string {
    (n: nat) => AppName(wanted, n)
  }

  lemma AppNamesDistinct(wanted: string)
    ensures Distinct(AppNames(wanted))
  {
    forall i: nat, j: nat | 2 <= i < j ensures AppName(wanted, i) != AppName(wanted, j) {
      if AppName(wanted, i) == AppName(wanted, j) {
        var a := PyTake(wanted, NAME_LIMIT - |" (" + Digits(i) + ")"|);
        var b := PyTake(wanted, NAME_LIMIT - |" (" + Digits(j) + ")"|);
        assert AppName(wanted, i) == (a + " ") + ['('] + Digits(i) + ")";
        assert AppName(wanted, j) == (b + " ") + ['('] + Digits(j) + ")";
        SuffixDetermines(a + " ", i, b + " ", j, '(', ")");
      }
    }
  }

  /** The numbers that leave an application name within its column. */
  const NAME_DIGITS: nat := 97
  const NAME_NUMBERS: nat := Pow10(NAME_DIGITS)

  /** `_unique_name`: the first free candidate, within one more try than there are names in use, and
      exactly when its name fits the column. */
  method UniqueName(taken: set<string>, wanted: string) returns (name: string, n: nat)
    ensures FirstFree(PyTake(wanted, NAME_LIMIT), AppNames(wanted), taken, n, name)
    ensures n <= |taken| + 2
    ensures |name| <= NAME_LIMIT <==>
            PyTake(wanted, NAME_LIMIT) !in taken || FreeBelow(AppNames(wanted), taken, NAME_NUMBERS)
    ensures |taken| + 2 < NAME_NUMBERS ==> |name| <= NAME_LIMIT
  {
    ghost var candidate := AppNames(wanted);
    AppNamesDistinct(wanted);
    name := PyTake(wanted, NAME_LIMIT);
    n := 1;
    while name in taken
      invariant n >= 1 && name == if n == 1 then PyTake(wanted, NAME_LIMIT) else AppName(wanted, n)
      invariant n > 1 ==> PyTake(wanted, NAME_LIMIT) in taken
      invariant forall k: nat | 2 <= k < n :: candidate(k) in taken
      invariant n <= |taken| + 2
      decreases |taken| + 2 - n
    {
      Pigeonhole(candidate, n + 1, taken);
      n := n + 1;
      var suffix := " (" + Digits(n) + ")";
      name := PyTake(wanted, NAME_LIMIT - |suffix|) + suffix;
    }
    AppNameFound(wanted, taken, n, name);
  }

  lemma AppNameFound(wanted: string, taken: set<string>, n: nat, name: string)
    requires FirstFree(PyTake(wanted, NAME_LIMIT), AppNames(wanted), taken, n, name) && n <= |taken| + 2
    ensures |name| <= NAME_LIMIT <==>
            PyTake(wanted, NAME_LIMIT) !in taken || FreeBelow(AppNames(wanted), taken, NAME_NUMBERS)
    ensures |taken| + 2 < NAME_NUMBERS ==> |name| <= NAME_LIMIT
  {
    forall k: nat ensures |AppNames(wanted)(k)| <= NAME_LIMIT <==> k < NAME_NUMBERS {
      AppNameFitsIff(wanted, k);
      DigitsLength(k, NAME_DIGITS);
    }
    FoundFitsIff(PyTake(wanted, NAME_LIMIT), AppNames(wanted), taken, n, name, NAME_LIMIT, NAME_NUMBERS);
  }

  /** A candidate fits the column if and only if its number has at most 97 digits. */
  lemma AppNameFitsIff(wanted: string, n: nat)
    ensures |AppName(wanted, n)| <= NAME_LIMIT <==> |Digits(n)| <= NAME_DIGITS
    ensures |PyTake(wanted, NAME_LIMIT)| <= NAME_LIMIT
  {
  }

  // ---- Proxy slugs -----------------------------------------------------------------------

  const SLUG_LIMIT: int := 63

  const RESERVED_SLUGS: set<string> :=
    {"directory", "new-nonce", "new-account", "new-order", "acct", "authz", "challenge", "order",
     "cert", "revoke-cert", "key-change"}

  predicate Alnum(c: char) {
    'a' <= c <= 'z' || '0' <= c <= '9'
  }

  function DropJunk(s: string): (r: string)
    ensures |r| <= |s| && (r != [] ==> Alnum(r[0]))
    ensures s != [] && !Alnum(s[0]) ==> |r| < |s|
  {
    if s == [] || Alnum(s[0]) then s else DropJunk(s[1..])
  }

  /** Each run of other characters becomes one dash. */
  function Collapse(s: string): (r: string)
    decreases |s|
  {
    if s == [] then []
    else if Alnum(s[0]) then [s[0]] + Collapse(s[1..])
    else ['-'] + Collapse(DropJunk(s))
  }

  function StripLeft(s: string): (r: string) {
    if s != [] && s[0] == '-' then StripLeft(s[1..]) else s
  }

  function StripRight(s: string): (r: string) {
    if s != [] && s[|s| - 1] == '-' then StripRight(s[..|s| - 1]) else s
  }

  /** `_slugify` of a label already in lower case. */
  function Slugify(text: string): string {
    var s := StripRight(StripLeft(Collapse(if text == [] then "ca" else text)));
    var cut := PyTake(s, SLUG_LIMIT);
    if cut == [] then "ca" else cut
  }

  /** Lower-case letters and digits, separated by single dashes. */
  ghost predicate Slug(s: string) {
    && (forall i | 0 <= i < |s| :: Alnum(s[i]) || s[i] == '-')
    && (forall i | 0 <= i < |s| - 1 :: s[i] == '-' ==> s[i + 1] != '-')
  }

  lemma {:induction false} CollapseIsSlug(s: string)
    ensures Slug(Collapse(s))
    ensures s != [] && Alnum(s[0]) ==> Collapse(s) != [] && Alnum(Collapse(s)[0])
    decreases |s|
  {
    if s != [] {
      CollapseIsSlug(if Alnum(s[0]) then s[1..] else DropJunk(s));
    }
  }

  lemma StripLeftIsSlug(s: string)
    requires Slug(s)
    ensures Slug(StripLeft(s)) && (StripLeft(s) != [] ==> StripLeft(s)[0] != '-')
  {
  }

  lemma StripRightIsSlug(s: string)
    requires Slug(s)
    ensures Slug(StripRight(s)) && StripRight(s) <= s
  {
  }

  /** Every label gives a usable slug: non-empty, in shape, starting with a letter or digit, and
      at most 63 characters. */
  lemma SlugifyShape(text: string)
    ensures var s := Slugify(text);
            Slug(s) && s != [] && Alnum(s[0]) && |s| <= SLUG_LIMIT
  {
    var c := Collapse(if text == [] then "ca" else text);
    CollapseIsSlug(if text == [] then "ca" else text);
    StripLeftIsSlug(c);
    StripRightIsSlug(StripLeft(c));
  }

  /** The letters and digits, in order. */
  function Letters(s: string): string {
    if s == [] then [] else if Alnum(s[0]) then [s[0]] + Letters(s[1..]) else Letters(s[1..])
  }

  lemma {:induction false} LettersConcat(s: string, t: string)
    ensures Letters(s + t) == Letters(s) + Letters(t)
  {
    if s == [] {
      assert s + t == t;
    } else {
      LettersConcat(s[1..], t);
      assert (s + t)[1..] == s[1..] + t;
    }
  }

  lemma {:induction false} DropJunkKeeps(s: string)
    ensures Letters(DropJunk(s)) == Letters(s)
  {
    if s != [] && !Alnum(s[0]) {
      DropJunkKeeps(s[1..]);
    }
  }

  lemma {:induction false} CollapseKeeps(s: string)
    ensures Letters(Collapse(s)) == Letters(s)
    decreases |s|
  {
    if s != [] {
      if Alnum(s[0]) {
        CollapseKeeps(s[1..]);
      } else {
        CollapseKeeps(DropJunk(s));
        DropJunkKeeps(s);
      }
    }
  }

  lemma {:induction false} StripLeftKeeps(s: string)
    ensures Letters(StripLeft(s)) == Letters(s)
  {
    if s != [] && s[0] == '-' {
      StripLeftKeeps(s[1..]);
    }
  }

  lemma {:induction false} StripRightKeeps(s: string)
    ensures Letters(StripRight(s)) == Letters(s)
  {
    if s != [] && s[|s| - 1] == '-' {
      var front := s[..|s| - 1];
      StripRightKeeps(front);
      LettersConcat(front, "-");
      assert s == front + "-" && Letters("-") == [];
    }
  }

  lemma {:induction false} CollapseFixes(s: string)
    requires Slug(s) && (s != [] ==> s[|s| - 1] != '-')
    ensures Collapse(s) == s
  {
    if s != [] {
      CollapseFixes(s[1..]);
      assert s[0] == '-' ==> DropJunk(s) == s[1..];
    }
  }

  /** A text that is a proper slug already is left as it is. */
  lemma SlugifyFixes(s: string)
    requires Slug(s) && s != [] && s[0] != '-' && s[|s| - 1] != '-' && |s| <= SLUG_LIMIT
    ensures Slugify(s) == s
  {
    CollapseFixes(s);
  }

  /** The slug keeps the letters and digits of the label in order, all of them unless it is cut at
      63 characters; a label with none becomes `ca`. */
  lemma SlugifyKeeps(text: string)
    ensures var s := Slugify(text);
            && (Letters(text) != [] ==> Letters(s) <= Letters(text))
            && (Letters(text) != [] && |s| < SLUG_LIMIT ==> Letters(s) == Letters(text))
            && (Letters(text) == [] ==> s == "ca")
  {
    if text == [] {
      SlugifyFixes("ca");
    } else {
      var whole := StripRight(StripLeft(Collapse(text)));
      WholeKeeps(text);
      var cut := PyTake(whole, SLUG_LIMIT);
      assert whole == cut + whole[|cut|..];
      LettersConcat(cut, whole[|cut|..]);
    }
  }

  lemma WholeKeeps(text: string)
    ensures var whole := StripRight(StripLeft(Collapse(text)));
            Letters(whole) == Letters(text) && (Letters(text) == [] ==> whole == [])
  {
    var c := Collapse(text);
    CollapseKeeps(text);
    StripLeftKeeps(c);
    StripRightKeeps(StripLeft(c));
    CollapseIsSlug(text);
    StripLeftIsSlug(c);
    StripRightIsSlug(StripLeft(c));
  }

  /** As much of `base` as a suffix with that many digits leaves room for, one character at least. */
  function SlugHead(base: string, digits: nat): (r: string)
    ensures |r| <= 1 || |r| <= SLUG_LIMIT - 1 - digits
    ensures |r| <= |base| && r == base[..|r|] && (base != [] ==> r != [])
  {
    var room := SLUG_LIMIT - 1 - digits;
    PyTake(base, if room > 1 then room else 1)
  }

  function SlugName(base: string, n: nat): string {
    SlugHead(base, |Digits(n)|) + "-" + Digits(n)
  }

  function SlugNames(base: string): nat -> string {
    (n: nat) => SlugName(base, n)
  }

  lemma SlugNamesDistinct(base: string)
    ensures Distinct(SlugNames(base))
  {
    forall i: nat, j: nat | 2 <= i < j ensures SlugName(base, i) != SlugName(base, j) {
      if SlugName(base, i) == SlugName(base, j) {
        var a, b := SlugHead(base, |Digits(i)|), SlugHead(base, |Digits(j)|);
        assert a + ['-'] + Digits(i) + [] == SlugName(base, i);
        assert b + ['-'] + Digits(j) + [] == SlugName(base, j);
        SuffixDetermines(a, i, b, j, '-', []);
      }
    }
  }

  /** The numbers that leave a slug within its column. */
  const SLUG_DIGITS: nat := 61
  const SLUG_NUMBERS: nat := Pow10(SLUG_DIGITS)

  /** A candidate fits if and only if its number has at most 61 digits. */
  lemma SlugNameFitsIff(base: string, n: nat)
    requires base != []
    ensures |SlugName(base, n)| <= SLUG_LIMIT <==> |Digits(n)| <= SLUG_DIGITS
  {
  }

  lemma SlugFound(base: string, used: set<string>, n: nat, slug: string)
    requires base != [] && |base| <= SLUG_LIMIT
    requires FirstFree(base, SlugNames(base), used, n, slug) && n <= |used| + 2
    ensures |slug| <= SLUG_LIMIT <==> base !in used || FreeBelow(SlugNames(base), used, SLUG_NUMBERS)
    ensures |used| + 2 < SLUG_NUMBERS ==> |slug| <= SLUG_LIMIT
  {
    forall k: nat ensures |SlugNames(base)(k)| <= SLUG_LIMIT <==> k < SLUG_NUMBERS {
      SlugNameFitsIff(base, k);
      DigitsLength(k, SLUG_DIGITS);
    }
    FoundFitsIff(base, SlugNames(base), used, n, slug, SLUG_LIMIT, SLUG_NUMBERS);
  }

  /** `_unique_slug`: the first candidate neither reserved nor in use, within one more try than
      there are such names, and exactly when it fits. */
  method UniqueSlug(reserved: set<string>, taken: set<string>, base: string) returns (slug: string, n: nat)
    ensures FirstFree(base, SlugNames(base), reserved + taken, n, slug)
    ensures n <= |reserved + taken| + 2
    ensures base != [] && |base| <= SLUG_LIMIT ==>
              && (|slug| <= SLUG_LIMIT <==>
                    base !in reserved + taken || FreeBelow(SlugNames(base), reserved + taken, SLUG_NUMBERS))
              && (|reserved + taken| + 2 < SLUG_NUMBERS ==> |slug| <= SLUG_LIMIT)
  {
    ghost var candidate := SlugNames(base);
    ghost var used := reserved + taken;
    SlugNamesDistinct(base);
    slug := base;
    n := 1;
    while slug in reserved || slug in taken
      invariant n >= 1 && slug == if n == 1 then base else SlugName(base, n)
      invariant n > 1 ==> base in used
      invariant forall k: nat | 2 <= k < n :: candidate(k) in used
      invariant n <= |used| + 2
      decreases |used| + 2 - n
    {
      Pigeonhole(candidate, n + 1, used);
      n := n + 1;
      var digits := Digits(n);
      var room := SLUG_LIMIT - |"-" + digits|;
      slug := PyTake(base, if room > 1 then room else 1) + "-" + digits;
    }
    if base != [] && |base| <= SLUG_LIMIT {
      SlugFound(base, used, n, slug);
    }
  }
}
