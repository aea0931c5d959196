/**
 * The section switcher of the portfolio page (`switchSection` in main.js).
 *
 * The card shows one of several `.card-section` panels; each `.nav-btn`
 * names, in `data-section`, the selector of the panel it opens. A switch runs
 * in two phases: an immediate begin phase that marks the card as loading and
 * clears every active mark, and a completion that a 200 ms timer runs later.
 * The timer is modelled by handing the begin phase's pending target to a
 * separate completion step, so that interleavings of several switches can be
 * stated.
 */
module Sections {
  import opened Wrappers
  import opened ClassFlags

  /**
   * A completion scheduled by the begin phase: the requested selector, the
   * section it found and the navigation button that names it.
   */
  datatype Target = Target(id: string, section: nat, button: nat)

  /**
   * The marks a switch changes: the card's `data-loading` and `data-state`
   * attributes, the parent's `switching` class, `is-active` on every section
   * and button, and `aria-current` on every button.
   */
  datatype CardView = CardView(
    loading: Option<string>,
    state: Option<string>,
    switching: bool,
    sectionActive: seq<bool>,
    buttonActive: seq<bool>,
    buttonCurrent: seq<bool>)

  /** The view has one mark per section and one pair of marks per button. */
  ghost predicate Fits(v: CardView, sectionCount: nat, buttonCount: nat) {
    |v.sectionActive| == sectionCount &&
    |v.buttonActive| == buttonCount && |v.buttonCurrent| == buttonCount
  }

  /**
   * The two `querySelector` lookups of the begin phase: the first section
   * answering to the selector and the first navigation button whose
   * `data-section` is that selector. A completion is scheduled only when both
   * exist.
   */
  function Lookup(sectionKeys: seq<string>, buttonTargets: seq<Option<string>>, id: string): (r: Option<Target>)
    ensures r.Some? <==> id in sectionKeys && Some(id) in buttonTargets
    ensures r.Some? ==>
      r.value.id == id &&
      r.value.section < |sectionKeys| && sectionKeys[r.value.section] == id &&
      id !in sectionKeys[..r.value.section] &&
      r.value.button < |buttonTargets| && buttonTargets[r.value.button] == Some(id) &&
      Some(id) !in buttonTargets[..r.value.button]
  {
    var s := IndexOf(sectionKeys, id);
    var b := IndexOf(buttonTargets, Some(id));
    if s >= 0 && b >= 0 then Some(Target(id, s, b)) else None
  }

  /**
   * The begin phase. Without a card nothing happens; otherwise the card is
   * marked loading, its parent switching, and no section or button stays
   * active or current. `data-state` is left as it was.
   */
  function BeginView(hasCard: bool, v: CardView): (r: CardView)
    ensures !hasCard ==> r == v
    ensures hasCard ==> r.loading == Some("true") && r.switching && r.state == v.state
    ensures |r.sectionActive| == |v.sectionActive| && |r.buttonActive| == |v.buttonActive|
    ensures |r.buttonCurrent| == |v.buttonCurrent|
    ensures hasCard ==> CountTrue(r.sectionActive) == 0 && CountTrue(r.buttonActive) == 0
    ensures hasCard ==> CountTrue(r.buttonCurrent) == 0
  {
    if !hasCard then v
    else
      var r := v.(loading := Some("true"), switching := true,
                  sectionActive := AllFalse(|v.sectionActive|),
                  buttonActive := AllFalse(|v.buttonActive|),
                  buttonCurrent := AllFalse(|v.buttonCurrent|));
      CountTrueNone(r.sectionActive);
      CountTrueNone(r.buttonActive);
      CountTrueNone(r.buttonCurrent);
      r
  }

  /**
   * The delayed completion as written: it ADDS `is-active` to the target
   * section and button and `aria-current` to the button, records the target
   * in `data-state`, clears `data-loading` and the `switching` class. Every
   * other mark is left as the completion found it.
   */
  function Completed(v: CardView, t: Target): (r: CardView)
    requires t.section < |v.sectionActive| && t.button < |v.buttonActive| && t.button < |v.buttonCurrent|
    ensures r.state == Some(t.id) && r.loading == Some("false") && !r.switching
    ensures |r.sectionActive| == |v.sectionActive| && |r.buttonActive| == |v.buttonActive|
    ensures |r.buttonCurrent| == |v.buttonCurrent|
    ensures r.sectionActive[t.section] && r.buttonActive[t.button] && r.buttonCurrent[t.button]
    ensures forall k :: 0 <= k < |v.sectionActive| && k != t.section ==> r.sectionActive[k] == v.sectionActive[k]
    ensures forall k :: 0 <= k < |v.buttonActive| && k != t.button ==> r.buttonActive[k] == v.buttonActive[k]
    ensures forall k :: 0 <= k < |v.buttonCurrent| && k != t.button ==> r.buttonCurrent[k] == v.buttonCurrent[k]
  {
    v.(loading := Some("false"), state := Some(t.id), switching := false,
       sectionActive := v.sectionActive[t.section := true],
       buttonActive := v.buttonActive[t.button := true],
       buttonCurrent := v.buttonCurrent[t.button := true])
  }

  /**
   * A switch that is not overtaken by another: after its begin phase and its
   * completion exactly the target section and exactly the target button are
   * active, that button alone is the current page, and the card has settled
   * on the target.
   */
  lemma {:induction false} SwitchSettles(sectionKeys: seq<string>, buttonTargets: seq<Option<string>>,
                                         v: CardView, id: string)
    requires Fits(v, |sectionKeys|, |buttonTargets|)
    requires Lookup(sectionKeys, buttonTargets, id).Some?
    ensures var t := Lookup(sectionKeys, buttonTargets, id).value;
            var r := Completed(BeginView(true, v), t);
            r.sectionActive[t.section] && CountTrue(r.sectionActive) == 1 &&
            r.buttonActive[t.button] && CountTrue(r.buttonActive) == 1 &&
            r.buttonCurrent[t.button] && CountTrue(r.buttonCurrent) == 1 &&
            r.state == Some(id) && r.loading == Some("false") && !r.switching
  {
    var t := Lookup(sectionKeys, buttonTargets, id).value;
    var b := BeginView(true, v);
    var r := Completed(b, t);
    CountTrueOne(r.sectionActive, t.section);
    CountTrueOne(r.buttonActive, t.button);
    CountTrueOne(r.buttonCurrent, t.button);
  }

  /**
   * A switch to a selector with no matching section or no matching button:
   * no completion is scheduled, so the begin phase's marks persist, with no
   * section active and the card left loading and switching.
   */
  lemma MissingTargetStaysLoading(sectionKeys: seq<string>, buttonTargets: seq<Option<string>>,
                                  v: CardView, id: string)
    requires id !in sectionKeys || Some(id) !in buttonTargets
    ensures Lookup(sectionKeys, buttonTargets, id).None?
    ensures var r := BeginView(true, v);
            CountTrue(r.sectionActive) == 0 && CountTrue(r.buttonActive) == 0 &&
            r.loading == Some("true") && r.switching
  {
  }

  /**
   * Two switches begun before either completes, completing in the order
   * begun: the later completion decides `data-state` and the loading marks,
   * but the earlier target's section and button stay active too.
   */
  lemma {:induction false} OvertakenSwitchKeepsBoth(v: CardView, t1: Target, t2: Target)
    requires t1.section < |v.sectionActive| && t2.section < |v.sectionActive|
    requires t1.button < |v.buttonActive| && t2.button < |v.buttonActive|
    requires |v.buttonCurrent| == |v.buttonActive|
    ensures var r := Completed(Completed(BeginView(true, BeginView(true, v)), t1), t2);
            r.state == Some(t2.id) && r.loading == Some("false") && !r.switching &&
            r.sectionActive[t1.section] && r.sectionActive[t2.section] &&
            r.buttonActive[t1.button] && r.buttonActive[t2.button] &&
            (t1.section != t2.section ==> CountTrue(r.sectionActive) >= 2)
  {
    var r := Completed(Completed(BeginView(true, BeginView(true, v)), t1), t2);
    if t1.section < t2.section {
      CountTrueTwo(r.sectionActive, t1.section, t2.section);
    } else if t2.section < t1.section {
      CountTrueTwo(r.sectionActive, t2.section, t1.section);
    }
  }

  /**
   * The page of the portfolio: sections `#about`, `#experience` and
   * `#contacts`, a button for each, `#about` showing. A click on
   * "experience" and then on "contacts" within 200 ms leaves both of those
   * sections active once both timers have run.
   */
  lemma TwoQuickSwitchesExample()
    ensures var keys := ["#about", "#experience", "#contacts"];
            var buttons := [Some("#about"), Some("#experience"), Some("#contacts")];
            var v := CardView(Some("false"), Some("#about"), false,
                              [true, false, false], [true, false, false], [true, false, false]);
            var t1 := Lookup(keys, buttons, "#experience");
            var t2 := Lookup(keys, buttons, "#contacts");
            t1 == Some(Target("#experience", 1, 1)) && t2 == Some(Target("#contacts", 2, 2)) &&
            Completed(Completed(BeginView(true, BeginView(true, v)), t1.value), t2.value)
              == CardView(Some("false"), Some("#contacts"), false,
                          [false, true, true], [false, true, true], [false, true, true])
  {
  }

  /**
   * The completion as the page evidently intends it: before marking the
   * target it clears every other section and button, so that however
   * completions interleave, exactly one section and one button are active
   * afterwards and the last completion decides which.
   */
  function CompletedExclusive(v: CardView, t: Target): (r: CardView)
    requires t.section < |v.sectionActive| && t.button < |v.buttonActive| && t.button < |v.buttonCurrent|
    ensures r.state == Some(t.id) && r.loading == Some("false") && !r.switching
    ensures |r.sectionActive| == |v.sectionActive| && |r.buttonActive| == |v.buttonActive|
    ensures |r.buttonCurrent| == |v.buttonCurrent|
    ensures r.sectionActive[t.section] && CountTrue(r.sectionActive) == 1
    ensures r.buttonActive[t.button] && CountTrue(r.buttonActive) == 1
    ensures r.buttonCurrent[t.button] && CountTrue(r.buttonCurrent) == 1
  {
    var cleared := BeginView(true, v);
    var r := Completed(cleared, t);
    CountTrueOne(r.sectionActive, t.section);
    CountTrueOne(r.buttonActive, t.button);
    CountTrueOne(r.buttonCurrent, t.button);
    r
  }

  /**
   * With the intended completion, two overtaking switches settle on the
   * later target alone.
   */
  lemma OvertakenSwitchSettlesOnLast(v: CardView, t1: Target, t2: Target)
    requires t1.section < |v.sectionActive| && t2.section < |v.sectionActive|
    requires t1.button < |v.buttonActive| && t2.button < |v.buttonActive|
    requires |v.buttonCurrent| == |v.buttonActive|
    ensures var r := CompletedExclusive(CompletedExclusive(BeginView(true, BeginView(true, v)), t1), t2);
            r.state == Some(t2.id) &&
            r.sectionActive[t2.section] && CountTrue(r.sectionActive) == 1 &&
            (t1.section != t2.section ==> !r.sectionActive[t1.section]) &&
            r.buttonActive[t2.button] && CountTrue(r.buttonActive) == 1 &&
            (t1.button != t2.button ==> !r.buttonActive[t1.button])
  {
  }

  /**
   * The switcher widget: the sections, buttons and card are fixed by the
   * page; their marks change.
   */
  class SectionSwitcher {
    /** The selector each `.card-section` answers to, in document order. */
    const sectionKeys: seq<string>
    /** `data-section` of each `.nav-btn`, absent where the button has none. */
    const buttonTargets: seq<Option<string>>
    /** Whether the page has a `.card`. */
    const hasCard: bool
    const sectionActive: array<bool>
    const buttonActive: array<bool>
    const buttonCurrent: array<bool>
    var loading: Option<string>
    var state: Option<string>
    var switching: bool

    ghost predicate Valid()
      reads this
    {
      sectionActive.Length == |sectionKeys| &&
      buttonActive.Length == |buttonTargets| && buttonCurrent.Length == |buttonTargets| &&
      sectionActive != buttonActive && sectionActive != buttonCurrent && buttonActive != buttonCurrent
    }

    /** The current marks of the page. */
    ghost function View(): (v: CardView)
      reads this, sectionActive, buttonActive, buttonCurrent
      requires Valid()
      ensures Fits(v, |sectionKeys|, |buttonTargets|)
    {
      CardView(loading, state, switching, sectionActive[..], buttonActive[..], buttonCurrent[..])
    }

    /** The page as loaded, with the marks its markup gives. */
    constructor (sectionKeys: seq<string>, buttonTargets: seq<Option<string>>, hasCard: bool,
                 initial: CardView)
      requires Fits(initial, |sectionKeys|, |buttonTargets|)
      ensures Valid() && View() == initial
      ensures fresh(sectionActive) && fresh(buttonActive) && fresh(buttonCurrent)
      ensures this.sectionKeys == sectionKeys && this.buttonTargets == buttonTargets
      ensures this.hasCard == hasCard
    {
      this.sectionKeys := sectionKeys;
      this.buttonTargets := buttonTargets;
      this.hasCard := hasCard;
      sectionActive := new bool[|initial.sectionActive|]
        (i requires 0 <= i < |initial.sectionActive| => initial.sectionActive[i]);
      buttonActive := new bool[|initial.buttonActive|]
        (i requires 0 <= i < |initial.buttonActive| => initial.buttonActive[i]);
      buttonCurrent := new bool[|initial.buttonCurrent|]
        (i requires 0 <= i < |initial.buttonCurrent| => initial.buttonCurrent[i]);
      loading := initial.loading;
      state := initial.state;
      switching := initial.switching;
    }

    /**
     * The begin phase of `switchSection(sectionId)`; returns the completion
     * it schedules, if any.
     */
    method Begin(sectionId: string) returns (pending: Option<Target>)
      requires Valid()
      modifies this`loading, this`switching, sectionActive, buttonActive, buttonCurrent
      ensures View() == BeginView(hasCard, old(View()))
      ensures pending == if hasCard then Lookup(sectionKeys, buttonTargets, sectionId) else None
    {
      if !hasCard {
        return None;
      }
      loading := Some("true");
      switching := true;
      for i := 0 to sectionActive.Length
        invariant forall k :: 0 <= k < i ==> !sectionActive[k]
        modifies sectionActive
      {
        sectionActive[i] := false;
      }
      for i := 0 to buttonActive.Length
        invariant forall k :: 0 <= k < i ==> !buttonActive[k] && !buttonCurrent[k]
        modifies buttonActive, buttonCurrent
      {
        buttonActive[i] := false;
        buttonCurrent[i] := false;
      }
      var s := IndexOf(sectionKeys, sectionId);
      var b := IndexOf(buttonTargets, Some(sectionId));
      pending := if s >= 0 && b >= 0 then Some(Target(sectionId, s, b)) else None;
    }

    /** The timer callback that a begin phase scheduled for `t`. */
    method Complete(t: Target)
      requires Valid() && hasCard
      requires Lookup(sectionKeys, buttonTargets, t.id) == Some(t)
      modifies this`loading, this`state, this`switching, sectionActive, buttonActive, buttonCurrent
      ensures View() == Completed(old(View()), t)
    {
      sectionActive[t.section] := true;
      buttonActive[t.button] := true;
      buttonCurrent[t.button] := true;
      state := Some(t.id);
      loading := Some("false");
      switching := false;
    }

    /**
     * A click on navigation button `i`: switches to its `data-section` when
     * it has a non-empty one, and does nothing otherwise.
     */
    method ClickNav(i: nat) returns (pending: Option<Target>)
      requires Valid() && i < |buttonTargets|
      modifies this`loading, this`switching, sectionActive, buttonActive, buttonCurrent
      ensures buttonTargets[i].Some? && buttonTargets[i].value != "" ==>
        View() == BeginView(hasCard, old(View())) &&
        pending == if hasCard then Lookup(sectionKeys, buttonTargets, buttonTargets[i].value) else None
      ensures buttonTargets[i].None? || buttonTargets[i].value == "" ==>
        View() == old(View()) && pending == None
    {
      pending := None;
      if buttonTargets[i].Some? && buttonTargets[i].value != "" {
        pending := Begin(buttonTargets[i].value);
      }
    }
  }
}
