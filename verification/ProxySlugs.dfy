/** The backfill of migration 051: the account the old proxy setting points at gets a slug. */
module ProxySlugs {
  import opened Prelude
  import opened FreshNames

  /** `text` is the account's label in lower case; an empty slug stands for NULL. */
  datatype Account = Account(text: string, slug: string, enabled: bool)

  function Taken(accounts: map<int, Account>, except: int): set<string> {
    set i | i in accounts && i != except && accounts[i].slug != "" :: accounts[i].slug
  }

  /** The unique index on the column. */
  ghost predicate UniqueSlugs(accounts: map<int, Account>) {
    forall i, j | i in accounts && j in accounts && i != j && accounts[i].slug != "" ::
      accounts[i].slug != accounts[j].slug
  }

  /** What the backfill may do: nothing, keep an existing slug, or give a fresh one. */
  ghost predicate Backfilled(before: map<int, Account>, target: Option<int>, after: map<int, Account>) {
    if target.None? || target.value !in before then after == before
    else
      var t := target.value;
      var a := before[t];
      var base := Slugify(a.text);
      && t in after && after == before[t := Account(a.text, after[t].slug, true)]
      && (if a.slug != "" then after[t].slug == a.slug
          else exists n: nat ::
                 && n <= |RESERVED_SLUGS + Taken(before, t)| + 2
                 && FirstFree(base, SlugNames(base), RESERVED_SLUGS + Taken(before, t), n, after[t].slug))
  }

  class AccountTable {
    var accounts: map<int, Account>

    method Backfill(target: Option<int>)
      modifies this
      ensures Backfilled(old(accounts), target, accounts)
    {
      if target.None? || target.value !in accounts {
        return;
      }
      var a := accounts[target.value];
      var slug := a.slug;
      if slug == "" {
        var n;
        slug, n := UniqueSlug(RESERVED_SLUGS, Taken(accounts, target.value), Slugify(a.text));
      }
      accounts := accounts[target.value := Account(a.text, slug, true)];
    }
  }

  lemma CandidateShape(base: string, n: nat)
    requires base != [] && forall i | 0 <= i < |base| :: Alnum(base[i]) || base[i] == '-'
    ensures var s := SlugName(base, n);
            s != [] && s[0] == base[0] && forall i | 0 <= i < |s| :: Alnum(s[i]) || s[i] == '-'
  {
  }

  /** The backfill keeps slugs unique and leaves every other account alone. A new slug is non-empty,
      in shape and not reserved, and within 63 characters exactly when the label's own slug or one
      with a short number was free, as it is with fewer than `10^61` names in use. Run again, the
      backfill changes nothing. */
  lemma BackfillIsSafe(before: map<int, Account>, target: Option<int>, after: map<int, Account>,
                       again: map<int, Account>)
    requires UniqueSlugs(before) && Backfilled(before, target, after) && Backfilled(after, target, again)
    ensures UniqueSlugs(after) && after.Keys == before.Keys && again == after
    ensures forall i | i in before && target != Some(i) :: after[i] == before[i]
    ensures target.Some? && target.value in before && before[target.value].slug == "" ==>
              NewSlug(RESERVED_SLUGS + Taken(before, target.value), Slugify(before[target.value].text),
                      after[target.value].slug)
  {
    if target.Some? && target.value in before && before[target.value].slug == "" {
      var t := target.value;
      NewSlugHolds(RESERVED_SLUGS + Taken(before, t), before[t].text, after[t].slug);
      assert after[t].slug !in Taken(before, t);
      assert forall i | i in before && i != t && before[i].slug != "" :: before[i].slug in Taken(before, t);
    }
  }

  /** What is promised of a slug given while `used` were reserved or taken. */
  ghost predicate NewSlug(used: set<string>, base: string, slug: string) {
    && slug != "" && Alnum(slug[0]) && (forall i | 0 <= i < |slug| :: Alnum(slug[i]) || slug[i] == '-')
    && slug !in used
    && (|slug| <= SLUG_LIMIT <==> base !in used || FreeBelow(SlugNames(base), used, SLUG_NUMBERS))
    && (|used| + 2 < SLUG_NUMBERS ==> |slug| <= SLUG_LIMIT)
  }

  lemma NewSlugHolds(used: set<string>, text: string, slug: string)
    requires exists n: nat ::
               n <= |used| + 2 && FirstFree(Slugify(text), SlugNames(Slugify(text)), used, n, slug)
    ensures NewSlug(used, Slugify(text), slug)
  {
    var base := Slugify(text);
    SlugifyShape(text);
    var n: nat :| n <= |used| + 2 && FirstFree(base, SlugNames(base), used, n, slug);
    if n > 1 {
      CandidateShape(base, n);
    }
    SlugFound(base, used, n, slug);
  }
}
