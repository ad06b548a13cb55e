/** The onboarding slides: the field configuration, how configuration groups
    become numbered, coloured slides, how the slides are assembled and sorted,
    and how the answered slides are folded back into a settings object. */
module IntroSlides {
  import opened JsValues

  // ---------------------------------------------------------------------------
  // Data
  // ---------------------------------------------------------------------------

  /** A sub-field of a slide that asks several questions at once. `value` and
      `default` are `Undefined` when the property is absent. */
  datatype Child = Child(order: int, field: Option<string>, default: JsValue, value: JsValue, props: map<string, JsValue>)

  /** A slide, or a configuration element before it becomes one: both are the
      same kind of JavaScript object, and every property a configuration
      element leaves out is `None`/`Undefined` here. `props` holds the display
      properties (label, type, text, colours of the alternative view, …). */
  datatype Slide = Slide(
    id: Option<string>,
    section: Option<string>,
    title: Option<string>,
    order: int,
    form: JsValue,
    bgColor: Option<string>,
    field: Option<string>,
    parent: Option<string>,
    default: JsValue,
    value: JsValue,
    children: Option<seq<Child>>,
    optionalSlides: Option<seq<Slide>>,
    props: map<string, JsValue>)

  /** The twelve-entry background palette `Colors`. */
  const Colors: seq<string> := [
    "#18a79b", "#18a777", "#1bbd87", "#579bb2", "#2f95dc", "#0066ff",
    "#576eb2", "#5757b2", "#8557b2", "#6e57b2", "#9966ff", "#073B4C"]

  /** A configuration element: a slide with only the given properties set. */
  function Element(section: string, order: int, field: Option<string>, parent: Option<string>,
                   default: JsValue, children: Option<seq<Child>>, optionalSlides: Option<seq<Slide>>,
                   props: map<string, JsValue>): Slide
  {
    Slide(None, Some(section), None, order, Undefined, None, field, parent, default, Undefined, children, optionalSlides, props)
  }

  function Field(order: int, field: string, default: JsValue, props: map<string, JsValue>): Child {
    Child(order, Some(field), default, Undefined, props)
  }

  const IncomeSlides: seq<Slide> := [
    Element("Let's Configure Your Income", 1, Some("firstPayDate"), None, Undefined, None, None,
      map["label" := Str("When is Your Next Paycheck?"), "type" := Str("date"), "format" := Str("MM/DD/YY")]),
    Element("Set How Often You Get Paid", 2, Some("payFrequency"), Some("incomeType"), Str("Bi-Weekly"), None, None,
      map["label" := Str("Pay Frequency"), "type" := Str("select")]),
    Element("Add Your Net Income", 3, Some("netAmount"), Some("incomeType"), Undefined, None, None,
      map["label" := Str("Paycheck Amount"), "type" := Str("currency")]),
    Element("Minimum Net Balance Threshold for Bill Allocation", 4, Some("isEnabled"), Some("balanceThresholds"), Undefined, None,
      Some([
        Element("Setup Threshold Amount", 5, None, Some("balanceThresholds"), Undefined,
          Some([
            Field(1, "thresholdType", Str("$"), map["label" := Str("Select Mode"), "type" := Str("select")]),
            Field(2, "amount", Undefined, map["label" := Str("Set Amount"), "type" := Str("number"), "maxValue" := Num(100)])
          ]), None,
          map["contollingElement" := Str("isEnabled")])
      ]),
      map["label" := Str("Enable a Balance Threshold"), "type" := Str("switch")])
  ]

  const SavingsSlides: seq<Slide> := [
    Element("Setup Automatic Savings", 6, Some("isEnabled"), None, Undefined, None,
      Some([
        Element("Savings Allocation Amount", 7, None, Some("allocation"), Undefined,
          Some([
            Field(1, "amountType", Str("%"), map["label" := Str("Set Amount Type"), "type" := Str("select")]),
            Field(2, "amount", Undefined, map["label" := Str("Set Savings Amount to Allocate"), "type" := Str("number")])
          ]), None,
          map["contollingElement" := Str("isEnabled")]),
        Element("Override Net Balance Thresholds", 8, Some("overrideThresholds"), None, Bool(false), None, None,
          map["label" := Str("Enable Override"), "type" := Str("switch"), "contollingElement" := Str("isEnabled"),
              "tooltip" := Str("Must have Balance Threshold enabled")])
      ]),
      map["label" := Str("Enable Savings"), "type" := Str("switch")])
  ]

  const DebtSlides: seq<Slide> := [
    Element("Do You Want to Pay Down Debts?", 9, Some("enableDebtStrategy"), None, Undefined, None,
      Some([
        Element("Debt Paydown Strategy", 10, Some("strategy"), None, Str("snowball"), None, None,
          map["label" := Str("Select Strategy"), "type" := Str("select")])
      ]),
      map["label" := Str("Enable Debt Paydown?"), "type" := Str("switch")])
  ]

  const WelcomeSlide: Slide := Slide(Some("welcome"), None, Some("Let's Get You Started!"), 0, Undefined, Some("#59b2ab"),
    None, None, Undefined, Undefined, None, None,
    map["text" := Str("We will start by creating a budget based on the information you enter here."),
        "image" := Str("calc.png"), "color" := Str("#fff")])

  const CompleteSlide: Slide := Slide(Some("complete"), None, Some("Almost There!"), 999, Undefined, Some("#4A148C"),
    None, None, Undefined, Undefined, None, None,
    map["titleAlt" := Str("Are You Sure You Want to Start Without Initial Setup?"),
        "text" := Str("Don't worry, these settings are just to get your budget started. You will be able to make changes later."),
        "textAlt" := Str("Skipping the initial setup means you'll configure settings manually later. You can always revisit this walkthrough!"),
        "action" := Str("Create Budget Now!"), "actionAlt" := Str("Launch Anyway!"),
        "image" := Str("rocket-takeoff.png"), "imageAlt" := Str("rocket.png"),
        "color" := Str("#fff"), "bgColorAlt" := Str("#e91d50")])

  // ---------------------------------------------------------------------------
  // Building slides from configuration
  // ---------------------------------------------------------------------------

  /** `${ele.section}` in a template literal. */
  function SectionText(section: Option<string>): string {
    section.GetOr("undefined")
  }

  /** The slide built from one configuration element at counter k:
      `{id: section-k, title: section, form: true, bgColor: Colors[k % 12], ...ele}`
      followed by `value = default` when the default is defined. Properties
      the element sets itself win over the generated ones. The id spells an
      absent section "undefined"; the title is the section as it is, so it
      stays absent with the section. */
  function BuildSlide(ele: Slide, k: nat): (r: Slide)
    ensures r.id == Some(ele.id.GetOr(SectionText(ele.section) + "-" + NatToString(k)))
    ensures ele.id.None? ==> r.id.value[..|SectionText(ele.section)| + 1] == SectionText(ele.section) + "-"
    ensures r.bgColor == Some(ele.bgColor.GetOr(Colors[k % |Colors|]))
    ensures ele.form == Undefined ==> r.form == Bool(true)
    ensures ele.form != Undefined ==> r.form == ele.form
    ensures ele.title.Some? ==> r.title == ele.title
    ensures ele.title.None? ==> r.title == ele.section
    ensures ele.default != Undefined ==> r.value == ele.default
    ensures ele.default == Undefined ==> r.value == ele.value
    ensures r.order == ele.order && r.field == ele.field && r.parent == ele.parent
    ensures r.section == ele.section && r.default == ele.default
    ensures r.children == ele.children && r.optionalSlides == ele.optionalSlides && r.props == ele.props
  {
    var section := SectionText(ele.section);
    var r := ele.(
      id := Some(ele.id.GetOr(section + "-" + NatToString(k))),
      title := if ele.title.Some? then ele.title else ele.section,
      form := if ele.form == Undefined then Bool(true) else ele.form,
      bgColor := Some(ele.bgColor.GetOr(Colors[k % |Colors|])),
      value := if ele.default != Undefined then ele.default else ele.value);
    assert ele.id.None? ==> r.id.value[..|section| + 1] == section + "-";
    r
  }

  /** How many optional slides an element nests. */
  function OptionalCount(ele: Slide): nat {
    if ele.optionalSlides.Some? then |ele.optionalSlides.value| else 0
  }

  function OptionalTotal(group: seq<Slide>): nat {
    if |group| == 0 then 0 else OptionalCount(group[0]) + OptionalTotal(group[1..])
  }

  /** The counter value at which element i of a group is built: every earlier
      element used one value for itself and one per optional slide. */
  function CounterAt(group: seq<Slide>, count: nat, i: nat): nat
    requires i <= |group|
  {
    count + i + OptionalTotal(group[..i])
  }

  /** One element of a group built at counter k: the element itself at k, its
      optional slides (when present) at k + 1, k + 2, …, nested rather than
      flattened. */
  function BuildElement(ele: Slide, k: nat): (r: Slide)
    ensures r.optionalSlides.Some? <==> ele.optionalSlides.Some?
    ensures r.optionalSlides.Some? ==>
      |r.optionalSlides.value| == |ele.optionalSlides.value|
      && forall j :: 0 <= j < |r.optionalSlides.value| ==>
           r.optionalSlides.value[j] == BuildSlide(ele.optionalSlides.value[j], k + 1 + j)
    ensures r.(optionalSlides := ele.optionalSlides) == BuildSlide(ele, k)
  {
    var base := BuildSlide(ele, k);
    if ele.optionalSlides.Some? then
      var opts := ele.optionalSlides.value;
      base.(optionalSlides := Some(seq(|opts|, j requires 0 <= j < |opts| => BuildSlide(opts[j], k + 1 + j))))
    else base
  }

  datatype SlideGroup = SlideGroup(slides: seq<Slide>, count: nat)

  /** `generateSlideGroup(configGroup, count)`: one slide per element, in input
      order, numbered with a running counter that each element advances by
      one plus its number of optional slides. */
  function GenerateSlideGroup(group: seq<Slide>, count: nat): (r: SlideGroup)
    ensures |r.slides| == |group|
    ensures r.count == count + |group| + OptionalTotal(group)
    ensures forall i :: 0 <= i < |group| ==> r.slides[i] == BuildElement(group[i], CounterAt(group, count, i))
    decreases |group|
  {
    if |group| == 0 then SlideGroup([], count)
    else
      var base := BuildElement(group[0], count);
      var rest := GenerateSlideGroup(group[1..], count + 1 + OptionalCount(group[0]));
      assert group[..0] == [];
      forall i | 1 <= i < |group|
        ensures CounterAt(group[1..], count + 1 + OptionalCount(group[0]), i - 1) == CounterAt(group, count, i)
      {
        CounterShift(group, count, i);
      }
      SlideGroup([base] + rest.slides, rest.count)
  }

  /** Element i of a group is element i - 1 of its tail, whose counter starts
      past the first element and its optional slides. */
  lemma CounterShift(group: seq<Slide>, count: nat, i: nat)
    requires 1 <= i <= |group|
    ensures CounterAt(group[1..], count + 1 + OptionalCount(group[0]), i - 1) == CounterAt(group, count, i)
  {
    assert group[..i][1..] == group[1..][..i - 1];
    assert group[..i][0] == group[0];
  }

  /** The counter strictly increases along a group, and the optional slides of
      element i take exactly the values between its own and the next one's,
      so no two slides of a group share a counter value. */
  lemma {:induction false} CounterGaps(group: seq<Slide>, count: nat, i: nat)
    requires i < |group|
    ensures CounterAt(group, count, i + 1) == CounterAt(group, count, i) + 1 + OptionalCount(group[i])
  {
    OptionalTotalSnoc(group[..i + 1]);
    assert group[..i + 1][..i] == group[..i];
  }

  lemma {:induction false} OptionalTotalSnoc(group: seq<Slide>)
    requires |group| > 0
    ensures OptionalTotal(group) == OptionalTotal(group[..|group| - 1]) + OptionalCount(group[|group| - 1])
    decreases |group|
  {
    if |group| == 1 {
      assert group[1..] == [];
      assert group[..0] == [];
    } else {
      OptionalTotalSnoc(group[1..]);
      assert group[1..][..|group| - 2] == group[..|group| - 1][1..];
    }
  }

  lemma CountersIncrease(group: seq<Slide>, count: nat, i: nat, j: nat)
    requires i < j <= |group|
    ensures CounterAt(group, count, i) + 1 + OptionalCount(group[i]) <= CounterAt(group, count, j)
    decreases j - i
  {
    CounterGaps(group, count, i);
    if i + 1 < j {
      CountersIncrease(group, count, i + 1, j);
    }
  }

  // ---------------------------------------------------------------------------
  // Assembling and sorting
  // ---------------------------------------------------------------------------

  /** Each slide's `order` is at most the next one's. */
  predicate SortedByOrder(s: seq<Slide>) {
    forall i :: 0 < i < |s| ==> s[i - 1].order <= s[i].order
  }

  /** Inserts a slide into an ordered list after every slide whose order is at
      most its own, as a stable sort does. */
  function InsertByOrder(x: Slide, s: seq<Slide>): (r: seq<Slide>)
    requires SortedByOrder(s)
    ensures SortedByOrder(r)
    ensures multiset(r) == multiset(s) + multiset{x}
    ensures |r| == |s| + 1
    ensures r[|r| - 1] == x || (|s| > 0 && r[|r| - 1] == s[|s| - 1])
    decreases |s|
  {
    if |s| == 0 then [x]
    else if s[|s| - 1].order <= x.order then
      SortedSnoc(s, x);
      s + [x]
    else
      var init := s[..|s| - 1];
      var last := s[|s| - 1];
      SortedPrefix(s);
      var front := InsertByOrder(x, init);
      assert |init| > 0 ==> init[|init| - 1] == s[|s| - 2];
      assert front[|front| - 1].order <= last.order;
      SortedSnoc(front, last);
      assert s == init + [last];
      assert multiset(front + [last]) == multiset(front) + multiset{last};
      front + [last]
  }

  /** Appending a slide whose order is at least the last one's keeps a list
      in order. */
  lemma SortedSnoc(s: seq<Slide>, y: Slide)
    requires SortedByOrder(s) && |s| > 0 && s[|s| - 1].order <= y.order
    ensures SortedByOrder(s + [y])
  {
    var t := s + [y];
    forall i | 0 < i < |t|
      ensures t[i - 1].order <= t[i].order
    {
      if i < |s| {
        assert t[i - 1] == s[i - 1] && t[i] == s[i];
      }
    }
  }

  /** Dropping the last slide keeps a list in order. */
  lemma SortedPrefix(s: seq<Slide>)
    requires SortedByOrder(s) && |s| > 0
    ensures SortedByOrder(s[..|s| - 1])
  {
    assert forall i :: 0 <= i < |s| - 1 ==> s[..|s| - 1][i] == s[i];
  }

  /** `slides.sort((a, b) => a.order - b.order)`: a stable sort by `order`. */
  function SortByOrder(s: seq<Slide>): (r: seq<Slide>)
    ensures SortedByOrder(r)
    ensures multiset(r) == multiset(s)
    ensures |r| == |s|
    decreases |s|
  {
    if |s| == 0 then []
    else
      assert s == s[..|s| - 1] + [s[|s| - 1]];
      InsertByOrder(s[|s| - 1], SortByOrder(s[..|s| - 1]))
  }

  /** The slides of one `order` value, in list order. */
  function OfOrder(s: seq<Slide>, o: int): seq<Slide>
    decreases |s|
  {
    if |s| == 0 then []
    else OfOrder(s[..|s| - 1], o) + (if s[|s| - 1].order == o then [s[|s| - 1]] else [])
  }

  lemma {:induction false} OfOrderAppend(a: seq<Slide>, b: seq<Slide>, o: int)
    ensures OfOrder(a + b, o) == OfOrder(a, o) + OfOrder(b, o)
    decreases |b|
  {
    if |b| == 0 {
      assert a + b == a;
    } else {
      assert (a + b)[..|a + b| - 1] == a + b[..|b| - 1];
      OfOrderAppend(a, b[..|b| - 1], o);
    }
  }

  /** The slides of one order in a one-slide list. */
  lemma OfOrderSingle(x: Slide, o: int)
    ensures OfOrder([x], o) == if x.order == o then [x] else []
  {
    assert [x][..0] == [];
  }

  /** Inserting adds the slide behind every slide of its own order. */
  lemma {:induction false} InsertByOrderStable(x: Slide, s: seq<Slide>, o: int)
    requires SortedByOrder(s)
    ensures OfOrder(InsertByOrder(x, s), o) == OfOrder(s, o) + OfOrder([x], o)
    decreases |s|
  {
    if |s| == 0 {
      assert InsertByOrder(x, s) == [x];
    } else if s[|s| - 1].order <= x.order {
      assert InsertByOrder(x, s) == s + [x];
      OfOrderAppend(s, [x], o);
    } else {
      var front := s[..|s| - 1];
      SortedPrefix(s);
      InsertByOrderStable(x, front, o);
      assert s == front + [s[|s| - 1]];
      assert InsertByOrder(x, s) == InsertByOrder(x, front) + [s[|s| - 1]];
      InsertBehind(InsertByOrder(x, front), front, x, s[|s| - 1], o);
    }
  }

  /** The step where the inserted slide passes a later-ordered last slide:
      `ins` is the front with the slide inserted. */
  lemma InsertBehind(ins: seq<Slide>, front: seq<Slide>, x: Slide, last: Slide, o: int)
    requires last.order > x.order
    requires OfOrder(ins, o) == OfOrder(front, o) + OfOrder([x], o)
    ensures OfOrder(ins + [last], o) == OfOrder(front + [last], o) + OfOrder([x], o)
  {
    OfOrderAppend(ins, [last], o);
    OfOrderAppend(front, [last], o);
    OfOrderSingle(last, o);
    OfOrderSingle(x, o);
  }

  /** The sort is stable: for every `order` value, the slides bearing it keep
      their relative input order, as `Array.prototype.sort` guarantees. */
  lemma {:induction false} SortByOrderStable(s: seq<Slide>, o: int)
    ensures OfOrder(SortByOrder(s), o) == OfOrder(s, o)
    decreases |s|
  {
    if |s| > 0 {
      var front := s[..|s| - 1];
      SortByOrderStable(front, o);
      InsertByOrderStable(s[|s| - 1], SortByOrder(front), o);
      assert [s[|s| - 1]][..0] == [];
    }
  }

  /** Sorting a list that is already in order leaves it as it is. */
  lemma {:induction false} SortSortedIdentity(s: seq<Slide>)
    requires SortedByOrder(s)
    ensures SortByOrder(s) == s
    decreases |s|
  {
    if |s| > 0 {
      var front := s[..|s| - 1];
      var last := s[|s| - 1];
      assert SortedByOrder(front) by {
        assert forall i :: 0 <= i < |front| ==> front[i] == s[i];
      }
      assert |front| > 0 ==> front[|front| - 1].order <= last.order by {
        if |front| > 0 {
          assert front[|front| - 1] == s[|s| - 2];
        }
      }
      SortSortedIdentity(front);
      assert SortByOrder(s) == InsertByOrder(last, front) by {
        assert s[..|s| - 1] == front;
      }
      InsertAtEnd(last, front);
      SplitLast(s);
    }
  }

  lemma SplitLast<T>(s: seq<T>)
    requires |s| > 0
    ensures s == s[..|s| - 1] + [s[|s| - 1]]
  {
  }

  lemma InsertAtEnd(x: Slide, s: seq<Slide>)
    requires SortedByOrder(s)
    requires |s| > 0 ==> s[|s| - 1].order <= x.order
    ensures InsertByOrder(x, s) == s + [x]
  {
  }

  /** The slide configuration `ConstructSlides` reads: the welcome slide, the
      three element groups and the closing slide. */
  datatype SlideConfig = SlideConfig(welcome: Slide, income: seq<Slide>, savings: seq<Slide>, debt: seq<Slide>, complete: Slide)

  /** The application's configuration. */
  const AppConfig: SlideConfig := SlideConfig(WelcomeSlide, IncomeSlides, SavingsSlides, DebtSlides, CompleteSlide)

  /** The welcome slide followed by the income, savings and debt groups, each
      group numbered where the previous one stopped. */
  function UnsortedSlides(c: SlideConfig): (r: seq<Slide>)
    ensures |r| == 1 + |c.income| + |c.savings| + |c.debt|
  {
    var income := GenerateSlideGroup(c.income, 0);
    var savings := GenerateSlideGroup(c.savings, income.count);
    var debt := GenerateSlideGroup(c.debt, savings.count);
    [c.welcome] + income.slides + savings.slides + debt.slides
  }

  /** `ConstructSlides()`: the welcome slide and the three groups sorted by
      `order`, then the closing slide. */
  function ConstructSlides(c: SlideConfig): (r: seq<Slide>)
    ensures |r| == |UnsortedSlides(c)| + 1 && r[|r| - 1] == c.complete
    ensures SortedByOrder(r[..|r| - 1])
    ensures multiset(r[..|r| - 1]) == multiset(UnsortedSlides(c))
  {
    var sorted := SortByOrder(UnsortedSlides(c));
    assert (sorted + [c.complete])[..|sorted|] == sorted;
    sorted + [c.complete]
  }

  /** A configuration whose slides already come in `order` is not reordered. */
  lemma ConstructKeepsOrderedConfig(c: SlideConfig)
    requires SortedByOrder(UnsortedSlides(c))
    ensures ConstructSlides(c)[..|UnsortedSlides(c)|] == UnsortedSlides(c)
  {
    var u := UnsortedSlides(c);
    SortSortedIdentity(u);
    assert (SortByOrder(u) + [c.complete])[..|u|] == SortByOrder(u);
  }

  /** Slides of equal `order` come out of `ConstructSlides` in building order. */
  lemma ConstructSlidesStable(c: SlideConfig, o: int)
    ensures OfOrder(ConstructSlides(c)[..|UnsortedSlides(c)|], o) == OfOrder(UnsortedSlides(c), o)
  {
    var u := UnsortedSlides(c);
    SortByOrderStable(u, o);
    assert (SortByOrder(u) + [c.complete])[..|u|] == SortByOrder(u);
  }

  lemma OptionalTotalThree(g: seq<Slide>)
    requires |g| == 3
    ensures OptionalTotal(g) == OptionalCount(g[0]) + OptionalCount(g[1]) + OptionalCount(g[2])
  {
    var t := g[1..];
    assert t[0] == g[1] && t[1..][0] == g[2] && t[1..][1..] == [];
    assert OptionalTotal(t[1..]) == OptionalCount(g[2]);
  }

  lemma OptionalTotalFour(g: seq<Slide>)
    requires |g| == 4
    ensures OptionalTotal(g) == OptionalCount(g[0]) + OptionalCount(g[1]) + OptionalCount(g[2]) + OptionalCount(g[3])
  {
    OptionalTotalThree(g[1..]);
  }

  /** Building keeps each element's `order`. */
  lemma GroupKeepsOrder(group: seq<Slide>, count: nat)
    ensures forall i :: 0 <= i < |group| ==> GenerateSlideGroup(group, count).slides[i].order == group[i].order
  {
  }

  /** The orders a configuration of this shape carries: welcome 0, income
      1–4, savings 6, debt 9. */
  predicate ConfiguredOrders(c: SlideConfig) {
    && c.welcome.order == 0
    && |c.income| == 4 && |c.savings| == 1 && |c.debt| == 1
    && c.income[0].order == 1 && c.income[1].order == 2
    && c.income[2].order == 3 && c.income[3].order == 4
    && c.savings[0].order == 6 && c.debt[0].order == 9
  }

  lemma AppConfigOrders()
    ensures ConfiguredOrders(AppConfig)
  {
  }

  /** The counter stops at 5 after the income group (four elements, one
      optional slide), at 8 after savings (one element, two optional slides)
      and at 10 after debt (one element, one optional slide). */
  lemma IncomeCount()
    ensures GenerateSlideGroup(IncomeSlides, 0).count == 5
  {
    IncomeOptionalTotal();
  }

  lemma IncomeOptionalTotal()
    ensures OptionalTotal(IncomeSlides) == 1
  {
    OptionalTotalFour(IncomeSlides);
  }

  lemma SavingsCount()
    ensures GenerateSlideGroup(SavingsSlides, 5).count == 8
  {
    assert SavingsSlides[1..] == [];
  }

  lemma DebtCount()
    ensures GenerateSlideGroup(DebtSlides, 8).count == 10
  {
    assert DebtSlides[1..] == [];
  }

  /** Seven slides whose orders are 0, 1, 2, 3, 4, 6, 9 are in order. */
  lemma SevenInOrder(w: Slide, a: seq<Slide>, b: seq<Slide>, c: seq<Slide>)
    requires w.order == 0 && |a| == 4 && |b| == 1 && |c| == 1
    requires a[0].order == 1 && a[1].order == 2 && a[2].order == 3 && a[3].order == 4
    requires b[0].order == 6 && c[0].order == 9
    ensures SortedByOrder([w] + a + b + c)
  {
    var u := [w] + a + b + c;
    assert u[1] == a[0] && u[2] == a[1] && u[3] == a[2] && u[4] == a[3] && u[5] == b[0] && u[6] == c[0];
  }

  /** Any configuration with these orders is already sorted once built. */
  lemma ConfiguredInOrder(c: SlideConfig)
    requires ConfiguredOrders(c)
    ensures |UnsortedSlides(c)| == 7 && SortedByOrder(UnsortedSlides(c))
  {
    var income := GenerateSlideGroup(c.income, 0);
    var savings := GenerateSlideGroup(c.savings, income.count);
    var debt := GenerateSlideGroup(c.debt, savings.count);
    GroupKeepsOrder(c.income, 0);
    GroupKeepsOrder(c.savings, income.count);
    GroupKeepsOrder(c.debt, savings.count);
    SevenInOrder(c.welcome, income.slides, savings.slides, debt.slides);
  }

  /** With the application's configuration the sort leaves the slides where
      they are: the eight slides are the welcome slide, the three groups in
      building order, and the 'complete' slide. */
  lemma ConstructedSlidesInOrder()
    ensures |ConstructSlides(AppConfig)| == 8
    ensures ConstructSlides(AppConfig)[..7] == UnsortedSlides(AppConfig)
    ensures ConstructSlides(AppConfig)[7] == CompleteSlide
  {
    AppConfigOrders();
    ConfiguredInOrder(AppConfig);
    ConstructKeepsOrderedConfig(AppConfig);
  }

  // ---------------------------------------------------------------------------
  // Folding slides into settings
  // ---------------------------------------------------------------------------

  /** The settings object under construction: top-level keys to values;
      a nested group is an `Obj`. */
  type Settings = map<string, JsValue>

  /** `if (slide.parent)`: a parent name counts only when it is a non-empty string. */
  predicate HasParent(parent: Option<string>) {
    parent.Some? && parent.value != ""
  }

  /** The property name `settings[field]` uses; an absent field is the key "undefined". */
  function KeyOf(field: Option<string>): string {
    field.GetOr("undefined")
  }

  /** The top-level key a slide (or its children) can write. */
  function WrittenKey(parent: Option<string>, field: Option<string>): string {
    if HasParent(parent) then parent.value else KeyOf(field)
  }

  /** The value stands where an assignment to `settings[parent][field]`, or to
      `settings[field]` without a parent, puts it. */
  predicate Stored(settings: Settings, parent: Option<string>, field: Option<string>, value: JsValue) {
    if HasParent(parent) then
      && parent.value in settings && settings[parent.value].Obj?
      && KeyOf(field) in settings[parent.value].fields
      && settings[parent.value].fields[KeyOf(field)] == value
    else KeyOf(field) in settings && settings[KeyOf(field)] == value
  }

  /** A parent entry an assignment cannot go through: assigning a property
      on a truthy primitive throws in strict-mode code. */
  predicate Blocked(settings: Settings, parent: Option<string>) {
    HasParent(parent) && Truthy(Get(settings, parent.value)) && !Get(settings, parent.value).Obj?
  }

  /** One assignment of a value to `settings[parent][field]` (reusing an
      existing parent object, creating `{}` when the entry is falsy) or to
      `settings[field]`. */
  function Write(settings: Settings, parent: Option<string>, field: Option<string>, value: JsValue): (r: Result<Settings>)
    ensures r.Err? <==> Blocked(settings, parent)
    ensures r.Ok? ==> Stored(r.value, parent, field, value)
    ensures r.Ok? ==> r.value.Keys == settings.Keys + {WrittenKey(parent, field)}
    ensures r.Ok? && HasParent(parent) ==>
      var p := r.value[parent.value];
      var prev := Get(settings, parent.value);
      && (prev.Obj? ==> p.fields.Keys == prev.fields.Keys + {KeyOf(field)})
      && (prev.Obj? ==> forall k :: k in prev.fields && k != KeyOf(field) ==> p.fields[k] == prev.fields[k])
      && (!prev.Obj? ==> p.fields.Keys == {KeyOf(field)})
    ensures r.Ok? ==> forall k :: k in settings && k != WrittenKey(parent, field) ==> r.value[k] == settings[k]
  {
    var key := KeyOf(field);
    if HasParent(parent) then
      var existing := Get(settings, parent.value);
      if !Truthy(existing) then Ok(settings[parent.value := Obj(map[key := value])])
      else if existing.Obj? then Ok(settings[parent.value := Obj(existing.fields[key := value])])
      else Err(TypeError("Cannot create property '" + key + "' on a primitive"))
    else Ok(settings[key := value])
  }

  /** A value already stored stays stored across an assignment under the same
      parent to a different field, and that assignment cannot throw. */
  lemma WriteKeepsStored(settings: Settings, parent: Option<string>, field: Option<string>, value: JsValue,
                         other: Option<string>, v: JsValue)
    requires Stored(settings, parent, field, value) && KeyOf(other) != KeyOf(field)
    ensures Write(settings, parent, other, v).Ok?
    ensures Stored(Write(settings, parent, other, v).value, parent, field, value)
  {
  }

  /** The children of one slide, written in order under the slide's parent.
      Only the first assignment can throw: once it succeeds the parent entry
      is an object. The last child's value is what ends up under its key. */
  function WriteChildren(settings: Settings, parent: Option<string>, children: seq<Child>): (r: Result<Settings>)
    ensures r.Err? <==> |children| > 0 && Blocked(settings, parent)
    ensures r.Ok? ==> settings.Keys <= r.value.Keys
    ensures r.Ok? && |children| > 0 ==>
      Stored(r.value, parent, children[|children| - 1].field, children[|children| - 1].value)
    decreases |children|
  {
    if |children| == 0 then Ok(settings)
    else
      match Write(settings, parent, children[0].field, children[0].value)
      case Err(e) => Err(e)
      case Ok(s) =>
        assert !Blocked(s, parent);
        assert |children| == 1 ==> children[1..] == [];
        WriteChildren(s, parent, children[1..])
  }

  /** A stored value survives the children's assignments when none of them
      uses its field. */
  lemma {:induction false} WriteChildrenKeepsStored(settings: Settings, parent: Option<string>, children: seq<Child>,
                                                    field: Option<string>, value: JsValue)
    requires Stored(settings, parent, field, value)
    requires forall k :: 0 <= k < |children| ==> KeyOf(children[k].field) != KeyOf(field)
    ensures WriteChildren(settings, parent, children).Ok?
    ensures Stored(WriteChildren(settings, parent, children).value, parent, field, value)
    decreases |children|
  {
    if |children| > 0 {
      WriteKeepsStored(settings, parent, field, value, children[0].field, children[0].value);
      var s := Write(settings, parent, children[0].field, children[0].value).value;
      WriteChildrenKeepsStored(s, parent, children[1..], field, value);
    }
  }

  /** Every child whose field no later child reuses leaves its value under
      that field. */
  lemma {:induction false} ChildStored(settings: Settings, parent: Option<string>, children: seq<Child>, j: nat)
    requires j < |children|
    requires forall k :: j < k < |children| ==> KeyOf(children[k].field) != KeyOf(children[j].field)
    ensures WriteChildren(settings, parent, children).Ok? ==>
      Stored(WriteChildren(settings, parent, children).value, parent, children[j].field, children[j].value)
    decreases |children|
  {
    match Write(settings, parent, children[0].field, children[0].value)
    case Err(_) =>
    case Ok(s) =>
      if j == 0 {
        WriteChildrenKeepsStored(s, parent, children[1..], children[0].field, children[0].value);
      } else {
        ChildStored(s, parent, children[1..], j - 1);
      }
  }

  /** One slide of `DeconstructSlides`: a slide without a truthy `form`
      contributes nothing; otherwise its children, or the slide itself, write
      their values. */
  function ApplySlide(settings: Settings, slide: Slide): (r: Result<Settings>)
    ensures !Truthy(slide.form) ==> r == Ok(settings)
    ensures r.Err? <==>
      Truthy(slide.form) && Blocked(settings, slide.parent) && (slide.children.Some? ==> |slide.children.value| > 0)
    ensures r.Ok? ==> settings.Keys <= r.value.Keys
    ensures r.Ok? && Truthy(slide.form) && slide.children.None? ==>
      Stored(r.value, slide.parent, slide.field, slide.value)
    ensures r.Ok? && Truthy(slide.form) && slide.children.Some? && |slide.children.value| > 0 ==>
      var last := slide.children.value[|slide.children.value| - 1];
      Stored(r.value, slide.parent, last.field, last.value)
  {
    if !Truthy(slide.form) then Ok(settings)
    else if slide.children.Some? then WriteChildren(settings, slide.parent, slide.children.value)
    else Write(settings, slide.parent, slide.field, slide.value)
  }

  function DeconstructFrom(settings: Settings, slides: seq<Slide>): (r: Result<Settings>)
    ensures r.Ok? ==> settings.Keys <= r.value.Keys
    decreases |slides|
  {
    if |slides| == 0 then Ok(settings)
    else
      match ApplySlide(settings, slides[0])
      case Err(e) => Err(e)
      case Ok(s) => DeconstructFrom(s, slides[1..])
  }

  /** `DeconstructSlides(slides, introStatus)`: starting from `{introStatus}`,
      every form slide in turn writes its values; later writes overwrite
      earlier ones. */
  function DeconstructSlides(slides: seq<Slide>, introStatus: string): (r: Result<Settings>)
    ensures r.Ok? ==> "introStatus" in r.value
    ensures (forall i :: 0 <= i < |slides| ==> !Truthy(slides[i].form)) ==> r == Ok(map["introStatus" := Str(introStatus)])
  {
    var r := DeconstructFrom(map["introStatus" := Str(introStatus)], slides);
    if forall i :: 0 <= i < |slides| ==> !Truthy(slides[i].form) then
      NoFormSlidesWriteNothing(map["introStatus" := Str(introStatus)], slides);
      r
    else r
  }

  lemma {:induction false} NoFormSlidesWriteNothing(settings: Settings, slides: seq<Slide>)
    requires forall i :: 0 <= i < |slides| ==> !Truthy(slides[i].form)
    ensures DeconstructFrom(settings, slides) == Ok(settings)
    decreases |slides|
  {
    if |slides| > 0 {
      NoFormSlidesWriteNothing(settings, slides[1..]);
    }
  }

  /** Folding a concatenation is folding the first part, then the second. */
  lemma {:induction false} DeconstructAppend(settings: Settings, a: seq<Slide>, b: seq<Slide>)
    ensures DeconstructFrom(settings, a + b) ==
      match DeconstructFrom(settings, a)
      case Err(e) => Err(e)
      case Ok(s) => DeconstructFrom(s, b)
    decreases |a|
  {
    if |a| == 0 {
      assert a + b == b;
    } else {
      assert (a + b)[1..] == a[1..] + b;
      match ApplySlide(settings, a[0])
      case Err(e) =>
      case Ok(s) => DeconstructAppend(s, a[1..], b);
    }
  }

  /** Last write wins: when the final slide is a form slide without parent or
      children, its value is what the settings hold under its field. */
  lemma LastWriteWins(settings: Settings, slides: seq<Slide>, last: Slide)
    requires Truthy(last.form) && last.children.None? && !HasParent(last.parent)
    requires DeconstructFrom(settings, slides).Ok?
    ensures DeconstructFrom(settings, slides + [last]).Ok?
    ensures KeyOf(last.field) in DeconstructFrom(settings, slides + [last]).value
    ensures DeconstructFrom(settings, slides + [last]).value[KeyOf(last.field)] == last.value
  {
    DeconstructAppend(settings, slides, [last]);
    var s := DeconstructFrom(settings, slides).value;
    assert DeconstructFrom(s, [last]) == ApplySlide(s, last);
  }

  /** Last write wins for any final form slide: when the fold succeeds, a
      slide with a parent leaves its value in the parent object under its
      field, and a slide with children leaves its last child's value. */
  lemma LastSlideStored(settings: Settings, slides: seq<Slide>, last: Slide)
    requires Truthy(last.form)
    requires DeconstructFrom(settings, slides + [last]).Ok?
    ensures last.children.None? ==>
      Stored(DeconstructFrom(settings, slides + [last]).value, last.parent, last.field, last.value)
    ensures last.children.Some? && |last.children.value| > 0 ==>
      var c := last.children.value[|last.children.value| - 1];
      Stored(DeconstructFrom(settings, slides + [last]).value, last.parent, c.field, c.value)
  {
    DeconstructAppend(settings, slides, [last]);
    var s := DeconstructFrom(settings, slides).value;
    assert DeconstructFrom(s, [last]) == ApplySlide(s, last);
  }

  predicate SlideWrites(slide: Slide, key: string) {
    Truthy(slide.form) &&
    if slide.children.Some? then
      (exists j :: 0 <= j < |slide.children.value| && WrittenKey(slide.parent, slide.children.value[j].field) == key)
    else WrittenKey(slide.parent, slide.field) == key
  }

  lemma {:induction false} WriteChildrenKeeps(settings: Settings, parent: Option<string>, children: seq<Child>, key: string)
    requires forall j :: 0 <= j < |children| ==> WrittenKey(parent, children[j].field) != key
    requires key in settings
    ensures WriteChildren(settings, parent, children).Ok? ==> key in WriteChildren(settings, parent, children).value && WriteChildren(settings, parent, children).value[key] == settings[key]
    decreases |children|
  {
    if |children| > 0 {
      match Write(settings, parent, children[0].field, children[0].value)
      case Err(_) =>
      case Ok(s) =>
        WriteChildrenKeeps(s, parent, children[1..], key);
    }
  }

  /** A key no slide writes keeps its initial value. */
  lemma {:induction false} DeconstructKeepsUnwritten(settings: Settings, slides: seq<Slide>, key: string)
    requires key in settings
    requires forall i :: 0 <= i < |slides| ==> !SlideWrites(slides[i], key)
    ensures DeconstructFrom(settings, slides).Ok? ==> DeconstructFrom(settings, slides).value[key] == settings[key]
    decreases |slides|
  {
    if |slides| > 0 {
      var slide := slides[0];
      if Truthy(slide.form) && slide.children.Some? {
        WriteChildrenKeeps(settings, slide.parent, slide.children.value, key);
      }
      match ApplySlide(settings, slide)
      case Err(_) =>
      case Ok(s) =>
        DeconstructKeepsUnwritten(s, slides[1..], key);
    }
  }
}
