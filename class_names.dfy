/** The class list of the `div` that replaces an attachment's anchor:
    the anchor's `className` split on single spaces, without the token
    `stretched-link`, joined again with single spaces. */
module ClassNames {
  import opened Strings

  /** The Bootstrap class that makes an anchor cover its whole card. */
  const StretchedLink := "stretched-link"

  /** `tokens.filter(cls => cls !== 'stretched-link')`: every token except
      `stretched-link`, and nothing else. */
  function DropStretchedLink(tokens: seq<string>): (kept: seq<string>)
    ensures forall t :: t in kept <==> t in tokens && t != StretchedLink
    ensures |kept| <= |tokens|
  {
    if tokens == [] then []
    else (if tokens[0] == StretchedLink then [] else [tokens[0]]) + DropStretchedLink(tokens[1..])
  }

  /** The filter works token by token: it commutes with concatenation, so
      the kept tokens stay in their original order. */
  lemma {:induction false} DropStretchedLinkAppend(a: seq<string>, b: seq<string>)
    ensures DropStretchedLink(a + b) == DropStretchedLink(a) + DropStretchedLink(b)
  {
    if a != [] {
      DropStretchedLinkAppend(a[1..], b);
      assert (a + b)[1..] == a[1..] + b;
      assert (a + b)[0] == a[0];
    } else {
      assert a + b == b;
    }
  }

  /** A list without `stretched-link` goes through the filter unchanged. */
  lemma {:induction false} DropStretchedLinkIdentity(tokens: seq<string>)
    requires StretchedLink !in tokens
    ensures DropStretchedLink(tokens) == tokens
  {
    if tokens != [] {
      assert forall t :: t in tokens[1..] ==> t in tokens;
      DropStretchedLinkIdentity(tokens[1..]);
      assert tokens == [tokens[0]] + tokens[1..];
    }
  }

  /** `link.className.split(' ').filter(...).join(' ')` as written in
      `replaceStretchedLink`. */
  function FilteredClassName(className: string): string {
    Join(DropStretchedLink(Split(className, ' ')), ' ')
  }

  /** The tokens of the new class name are exactly the old tokens without
      `stretched-link`, in their old order (an empty list reads back as the
      single empty token, as `"".split(' ')` does). */
  lemma FilteredClassNameTokens(className: string)
    ensures var kept := DropStretchedLink(Split(className, ' '));
      Split(FilteredClassName(className), ' ') == if kept == [] then [""] else kept
  {
    var kept := DropStretchedLink(Split(className, ' '));
    if kept != [] {
      SplitJoin(kept, ' ');
    }
  }

  /** After the filter no token is `stretched-link`. */
  lemma FilteredClassNameDropsStretchedLink(className: string)
    ensures StretchedLink !in Split(FilteredClassName(className), ' ')
  {
    FilteredClassNameTokens(className);
  }

  /** A class name without the `stretched-link` token is copied verbatim. */
  lemma FilteredClassNameKeepsOthers(className: string)
    requires StretchedLink !in Split(className, ' ')
    ensures FilteredClassName(className) == className
  {
    DropStretchedLinkIdentity(Split(className, ' '));
    JoinSplit(className, ' ');
  }

  /** Filtering twice is the same as filtering once. */
  lemma FilteredClassNameIdempotent(className: string)
    ensures FilteredClassName(FilteredClassName(className)) == FilteredClassName(className)
  {
    FilteredClassNameDropsStretchedLink(className);
    FilteredClassNameKeepsOthers(FilteredClassName(className));
  }
}
