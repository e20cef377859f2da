/** One attachment widget of the host page and what the content script
    does to it: the per-container enhancement step
    (`enhanceAttachmentContainer` with `replaceStretchedLink`), the
    per-container undo step of `removeEnhancements`, and both applied to
    every container of a page in document order. */
module Attachments {
  import opened Wrappers
  import opened Strings
  import opened Buttons
  import opened ClassNames

  /** The element that `a[href*="/attachments/"]` finds in a container, or
      the `div` that replaced it. The replacement copies the anchor's
      classes (minus `stretched-link`) and content but has no `href`, so
      neither attachment-link selector ever finds it again. */
  datatype LinkSlot =
    | AttachmentAnchor(href: string, className: string)
    | ReplacementDiv(className: string)

  /** An `.OnboardingAttachments__attachment__container` element. */
  datatype Container = Container(
    link: Option<LinkSlot>,         // the attachment anchor, or its replacement
    title: Option<string>,          // text of the title span, when there is one
    tab: Option<string>,            // text of the file-type tab, when there is one
    enhanced: bool,                 // carries the class flippa-preview-enhanced
    buttonRows: seq<seq<Button>>)   // its .flippa-preview-buttons children, in order

  predicate HasAnchor(c: Container) {
    c.link.Some? && c.link.value.AttachmentAnchor?
  }

  /** The three elements `enhanceAttachmentContainer` looks up first. */
  predicate HasRequiredElements(c: Container) {
    HasAnchor(c) && c.title.Some? && c.tab.Some?
  }

  /** A container as the host page renders it: never marked, no rows. */
  predicate Pristine(c: Container) {
    !c.enhanced && c.buttonRows == []
  }

  /** What the script keeps true of every container: a button row exactly
      when marked, and a marked container has lost its anchor. */
  predicate WellFormed(c: Container) {
    |c.buttonRows| == (if c.enhanced then 1 else 0) && (c.enhanced ==> !HasAnchor(c))
  }

  predicate AllWellFormed(cs: seq<Container>) {
    forall k :: 0 <= k < |cs| ==> WellFormed(cs[k])
  }

  /** Which return of `enhanceAttachmentContainer` was taken. */
  datatype Outcome = MissingElements | AlreadyEnhanced | Enhanced

  datatype Step = Step(container: Container, outcome: Outcome)

  /** `enhanceAttachmentContainer`: the missing-element check comes first,
      then the marker check; an eligible, unmarked container is marked, its
      anchor is swapped for the class-filtered div, and one button row built
      from the anchor's URL, the trimmed title and the normalised tab text
      is appended. */
  function EnhanceContainer(c: Container): (s: Step)
    ensures s.outcome == MissingElements <==> !HasRequiredElements(c)
    ensures s.outcome == AlreadyEnhanced <==> HasRequiredElements(c) && c.enhanced
    ensures s.outcome != Enhanced ==> s.container == c
    ensures WellFormed(c) ==> WellFormed(s.container)
  {
    if !HasRequiredElements(c) then Step(c, MissingElements)
    else
      var url := c.link.value.href;
      var title := Trim(c.title.value);
      var fileType := FileTypeOf(c.tab.value);
      if c.enhanced then Step(c, AlreadyEnhanced)
      else
        var div := ReplacementDiv(FilteredClassName(c.link.value.className));
        Step(c.(enhanced := true, link := Some(div),
                buttonRows := c.buttonRows + [CreateButtonRow(url, title, fileType)]),
             Enhanced)
  }

  /** A container missing its anchor, title or tab is left as it is. */
  lemma IncompleteContainerUnchanged(c: Container)
    requires !HasRequiredElements(c)
    ensures EnhanceContainer(c) == Step(c, MissingElements)
  {
  }

  /** Enhancing an eligible, unmarked container marks it, removes its
      anchor, keeps its title and tab, and appends exactly one row: the
      row for its URL, trimmed title and tab text. */
  lemma EnhanceEligible(c: Container)
    requires HasRequiredElements(c) && !c.enhanced
    ensures var r := EnhanceContainer(c).container;
      && r.enhanced && !HasAnchor(r)
      && r.link == Some(ReplacementDiv(FilteredClassName(c.link.value.className)))
      && r.title == c.title && r.tab == c.tab
      && r.buttonRows == c.buttonRows
           + [CreateButtonRow(c.link.value.href, Trim(c.title.value), FileTypeOf(c.tab.value))]
  {
  }

  /** A second enhancement changes nothing. Because the anchor check runs
      before the marker check, a container enhanced by the first pass is
      turned away as missing its anchor, never as already marked. */
  lemma EnhanceTwice(c: Container)
    ensures var first := EnhanceContainer(c);
      var second := EnhanceContainer(first.container);
      && second.container == first.container
      && second.outcome != Enhanced
      && (first.outcome == Enhanced ==> second.outcome == MissingElements)
  {
  }

  /** On a well-formed container the marker check is never what stops the
      step: every marked container has already lost its anchor. */
  lemma MarkerCheckUnreached(c: Container)
    requires WellFormed(c)
    ensures EnhanceContainer(c).outcome != AlreadyEnhanced
  {
  }

  /** The body of the `removeEnhancements` loop for one marked container:
      the first `.flippa-preview-buttons` row is removed and the marker is
      dropped. The link lookup finds no anchor in an enhanced container (its
      replacement has no `href`), so the link stays as it is. */
  function RemoveEnhancement(c: Container): (r: Container)
    ensures !c.enhanced ==> r == c
    ensures !r.enhanced
    ensures r.link == c.link && r.title == c.title && r.tab == c.tab
    ensures WellFormed(c) ==> WellFormed(r) && r.buttonRows == []
  {
    if !c.enhanced then c
    else c.(enhanced := false, buttonRows := if c.buttonRows == [] then [] else c.buttonRows[1..])
  }

  /** `enhanceAttachments` as a function of the flag and the containers:
      nothing when disabled, otherwise the step on each container. */
  function EnhancePass(enabled: bool, cs: seq<Container>): (r: seq<Container>)
    ensures |r| == |cs|
  {
    if !enabled then cs
    else seq(|cs|, k requires 0 <= k < |cs| => EnhanceContainer(cs[k]).container)
  }

  /** The container loop of `removeEnhancements`. */
  function RemovePass(cs: seq<Container>): (r: seq<Container>)
    ensures |r| == |cs|
  {
    seq(|cs|, k requires 0 <= k < |cs| => RemoveEnhancement(cs[k]))
  }

  /** A page that has had the enhancement step applied to each of its
      containers, in place, is the enabled pass over it. */
  lemma EnhancedPointwise(cs: seq<Container>, r: seq<Container>)
    requires |r| == |cs|
    requires forall k :: 0 <= k < |cs| ==> r[k] == EnhanceContainer(cs[k]).container
    ensures r == EnhancePass(true, cs)
  {
  }

  /** A page that has had the removal step applied to each of its
      containers, in place, is the removal pass over it. */
  lemma RemovedPointwise(cs: seq<Container>, r: seq<Container>)
    requires |r| == |cs|
    requires forall k :: 0 <= k < |cs| ==> r[k] == RemoveEnhancement(cs[k])
    ensures r == RemovePass(cs)
  {
  }

  /** An enhancement pass keeps every container well formed; in particular
      no container ever carries more than one button row. */
  lemma EnhancePassWellFormed(enabled: bool, cs: seq<Container>)
    requires AllWellFormed(cs)
    ensures AllWellFormed(EnhancePass(enabled, cs))
    ensures forall k :: 0 <= k < |cs| ==> |EnhancePass(enabled, cs)[k].buttonRows| <= 1
  {
  }

  /** A second enhancement pass changes nothing. */
  lemma {:induction false} EnhancePassIdempotent(cs: seq<Container>)
    ensures EnhancePass(true, EnhancePass(true, cs)) == EnhancePass(true, cs)
  {
    var once := EnhancePass(true, cs);
    forall k | 0 <= k < |cs|
      ensures EnhancePass(true, once)[k] == once[k]
    {
      EnhanceTwice(cs[k]);
    }
  }

  /** `n` enhancement passes in a row, as the page observer may trigger. */
  function EnhancePasses(n: nat, cs: seq<Container>): seq<Container> {
    if n == 0 then cs else EnhancePass(true, EnhancePasses(n - 1, cs))
  }

  /** Any positive number of passes does what one pass does. */
  lemma {:induction false} EnhancePassesCollapse(n: nat, cs: seq<Container>)
    requires n >= 1
    ensures EnhancePasses(n, cs) == EnhancePass(true, cs)
  {
    if n > 1 {
      EnhancePassesCollapse(n - 1, cs);
      var r := EnhancePasses(n, cs);
      var once := EnhancePass(true, cs);
      forall k | 0 <= k < |cs|
        ensures r[k] == once[k]
      {
        EnhanceTwice(cs[k]);
      }
    }
  }

  /** After a removal pass over well-formed containers no container is
      marked or holds a row, and containers that were not marked are
      unchanged. */
  lemma RemovePassClears(cs: seq<Container>)
    requires AllWellFormed(cs)
    ensures AllWellFormed(RemovePass(cs))
    ensures forall k :: 0 <= k < |cs| ==>
      !RemovePass(cs)[k].enhanced && RemovePass(cs)[k].buttonRows == []
    ensures forall k :: 0 <= k < |cs| && !cs[k].enhanced ==> RemovePass(cs)[k] == cs[k]
  {
  }

  /** Disabling then enabling again leaves every container unenhanced:
      each one enhanced before has lost its anchor for good, so the new
      pass skips it, and every other one was skipped before too. */
  lemma {:induction false} DisableEnableDoesNotReenhance(cs: seq<Container>)
    requires AllWellFormed(cs)
    ensures var off := RemovePass(EnhancePass(true, cs));
      && EnhancePass(true, off) == off
      && forall k :: 0 <= k < |cs| ==> !off[k].enhanced && off[k].buttonRows == []
  {
    var on := EnhancePass(true, cs);
    var off := RemovePass(on);
    EnhancePassWellFormed(true, cs);
    RemovePassClears(on);
    forall k | 0 <= k < |cs|
      ensures EnhanceContainer(off[k]).outcome == MissingElements
    {
      assert WellFormed(cs[k]);
      var s := EnhanceContainer(cs[k]);
      if s.outcome == Enhanced {
        assert !HasAnchor(off[k]);
      } else {
        MarkerCheckUnreached(cs[k]);
        assert !HasRequiredElements(cs[k]) && on[k] == cs[k];
        assert !HasRequiredElements(off[k]);
      }
    }
  }
}
