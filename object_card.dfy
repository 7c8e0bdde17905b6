/** The shopping card shown for one detected object: the retailer badge
    colour, the price line and the hover reports. */
module ObjectCard {
  import opened Types
  import opened Text

  /** The nine retailer badges the card can show. */
  datatype Badge = Amazon | Myntra | Flipkart | Ajio | TataCliq | Meesho | Nykaa | Official | Other

  /** The utility classes each badge is drawn with. */
  function BadgeClasses(b: Badge): string {
    match b
    case Amazon => "text-orange-700 bg-orange-50 border-orange-200"
    case Myntra => "text-rose-700 bg-rose-50 border-rose-200"
    case Flipkart => "text-blue-700 bg-blue-50 border-blue-200"
    case Ajio => "text-slate-900 bg-slate-100 border-slate-300"
    case TataCliq => "text-red-700 bg-red-50 border-red-200"
    case Meesho => "text-pink-700 bg-pink-50 border-pink-200"
    case Nykaa => "text-pink-800 bg-rose-50 border-pink-300"
    case Official => "text-emerald-800 bg-emerald-50 border-emerald-200"
    case Other => "text-indigo-700 bg-indigo-50 border-indigo-200"
  }

  const CheckPriceLabel := "CHECK PRICE"

  /** The keywords the classifier looks for, in their lower-case form. */
  const AmazonKey := "amazon"
  const MyntraKey := "myntra"
  const FlipkartKey := "flipkart"
  const AjioKey := "ajio"
  const TataCliqKey := "tata cliq"
  const MeeshoKey := "meesho"
  const NykaaKey := "nykaa"
  const OfficialKey := "official"
  const DotComKey := ".com"
  const BrandKey := "brand"

  /** The badge for a retailer name: keyword tests on its lower-cased form. */
  function PlatformBadge(platform: string): Badge {
    Classify(ToLower(platform))
  }

  /** The keyword tests in their fixed order, the first that succeeds
      deciding. */
  function Classify(p: string): Badge {
    if Contains(p, AmazonKey) then Amazon
    else if Contains(p, MyntraKey) then Myntra
    else if Contains(p, FlipkartKey) then Flipkart
    else if Contains(p, AjioKey) then Ajio
    else if Contains(p, TataCliqKey) then TataCliq
    else if Contains(p, MeeshoKey) then Meesho
    else if Contains(p, NykaaKey) then Nykaa
    else if Contains(p, OfficialKey) || Contains(p, DotComKey) || Contains(p, BrandKey) then Official
    else Other
  }

  /** `getPlatformStyle`: the classes of the badge chosen for the name. */
  function PlatformStyle(platform: string): string {
    BadgeClasses(PlatformBadge(platform))
  }

  // ---------------------------------------------------------------------
  // A reference reading of the classifier: an ordered rule table
  // ---------------------------------------------------------------------

  /** A rule fires when the name contains any of its keywords. */
  datatype Rule = Rule(keywords: seq<string>, badge: Badge)

  const Rules: seq<Rule> := [
    Rule([AmazonKey], Amazon),
    Rule([MyntraKey], Myntra),
    Rule([FlipkartKey], Flipkart),
    Rule([AjioKey], Ajio),
    Rule([TataCliqKey], TataCliq),
    Rule([MeeshoKey], Meesho),
    Rule([NykaaKey], Nykaa),
    Rule([OfficialKey, DotComKey, BrandKey], Official)
  ]

  predicate Fires(p: string, r: Rule) {
    exists k :: k in r.keywords && Contains(p, k)
  }

  /** The badge of the first rule that fires, or the fallback. */
  function FirstMatch(p: string, rules: seq<Rule>, fallback: Badge): Badge {
    if rules == [] then fallback
    else if Fires(p, rules[0]) then rules[0].badge
    else FirstMatch(p, rules[1..], fallback)
  }

  /** No two rules share a badge, and none uses the fallback. */
  predicate DistinctBadges(rules: seq<Rule>, fallback: Badge) {
    && (forall i :: 0 <= i < |rules| ==> rules[i].badge != fallback)
    && (forall i, j :: 0 <= i < j < |rules| ==> rules[i].badge != rules[j].badge)
  }

  /** The first-match result is the fallback or the badge of some rule. */
  lemma {:induction false} FirstMatchRange(p: string, rules: seq<Rule>, fallback: Badge) returns (j: int)
    ensures j == -1 ==> FirstMatch(p, rules, fallback) == fallback
    ensures j != -1 ==> 0 <= j < |rules| && FirstMatch(p, rules, fallback) == rules[j].badge
  {
    if rules == [] {
      j := -1;
    } else if Fires(p, rules[0]) {
      j := 0;
    } else {
      j := FirstMatchRange(p, rules[1..], fallback);
      if j != -1 { j := j + 1; }
    }
  }

  /** With distinct badges, the first-match result names rule `i` exactly
      when rule `i` fires and no earlier rule does. */
  lemma {:induction false} FirstMatchIs(p: string, rules: seq<Rule>, fallback: Badge, i: int)
    requires DistinctBadges(rules, fallback) && 0 <= i < |rules|
    ensures FirstMatch(p, rules, fallback) == rules[i].badge
        <==> Fires(p, rules[i]) && forall j :: 0 <= j < i ==> !Fires(p, rules[j])
  {
    if i == 0 && !Fires(p, rules[0]) {
      var j := FirstMatchRange(p, rules[1..], fallback);
      if j != -1 { assert rules[1..][j] == rules[j + 1]; }
    }
    if i > 0 {
      assert DistinctBadges(rules[1..], fallback) by {
        forall a, b | 0 <= a < b < |rules| - 1 ensures rules[1..][a].badge != rules[1..][b].badge {
          assert rules[1..][a] == rules[a + 1] && rules[1..][b] == rules[b + 1];
        }
      }
      FirstMatchIs(p, rules[1..], fallback, i - 1);
      if Fires(p, rules[0]) {
        assert rules[0].badge != rules[i].badge;
      } else {
        forall j | 1 <= j < i ensures rules[j] == rules[1..][j - 1] { }
        assert (forall j :: 0 <= j < i ==> !Fires(p, rules[j]))
           <==> (forall j :: 0 <= j < i - 1 ==> !Fires(p, rules[1..][j]));
      }
    }
  }

  /** With distinct badges, the fallback comes out exactly when no rule fires. */
  lemma {:induction false} FirstMatchFallback(p: string, rules: seq<Rule>, fallback: Badge)
    requires DistinctBadges(rules, fallback)
    ensures FirstMatch(p, rules, fallback) == fallback <==> forall j :: 0 <= j < |rules| ==> !Fires(p, rules[j])
  {
    if rules != [] {
      assert DistinctBadges(rules[1..], fallback) by {
        forall a, b | 0 <= a < b < |rules| - 1 ensures rules[1..][a].badge != rules[1..][b].badge {
          assert rules[1..][a] == rules[a + 1] && rules[1..][b] == rules[b + 1];
        }
      }
      FirstMatchFallback(p, rules[1..], fallback);
      if !Fires(p, rules[0]) {
        forall j | 1 <= j < |rules| ensures rules[j] == rules[1..][j - 1] { }
      }
    }
  }

  lemma FiresSingle(p: string, r: Rule)
    requires |r.keywords| == 1
    ensures Fires(p, r) == Contains(p, r.keywords[0])
  {
    if Contains(p, r.keywords[0]) { assert r.keywords[0] in r.keywords; }
  }

  lemma RulesFireAsWritten(p: string)
    ensures Fires(p, Rules[0]) == Contains(p, AmazonKey)
    ensures Fires(p, Rules[1]) == Contains(p, MyntraKey)
    ensures Fires(p, Rules[2]) == Contains(p, FlipkartKey)
    ensures Fires(p, Rules[3]) == Contains(p, AjioKey)
    ensures Fires(p, Rules[4]) == Contains(p, TataCliqKey)
    ensures Fires(p, Rules[5]) == Contains(p, MeeshoKey)
    ensures Fires(p, Rules[6]) == Contains(p, NykaaKey)
    ensures Fires(p, Rules[7]) == (Contains(p, OfficialKey) || Contains(p, DotComKey) || Contains(p, BrandKey))
  {
    forall k | 0 <= k < 7 ensures Fires(p, Rules[k]) == Contains(p, Rules[k].keywords[0]) {
      FiresSingle(p, Rules[k]);
    }
    var k7 := Rules[7].keywords;
    assert k7 == [OfficialKey, DotComKey, BrandKey];
  }

  lemma FirstMatchStep(p: string, rules: seq<Rule>, fallback: Badge, k: int)
    requires 0 <= k < |rules|
    ensures FirstMatch(p, rules[k..], fallback)
         == if Fires(p, rules[k]) then rules[k].badge else FirstMatch(p, rules[k + 1..], fallback)
  {
    assert rules[k..][0] == rules[k];
    assert rules[k..][1..] == rules[k + 1..];
  }

  /** The chain of tests is the first-match reading of the rule table. */
  lemma PlatformStyleIsFirstMatch(platform: string)
    ensures PlatformBadge(platform) == FirstMatch(ToLower(platform), Rules, Other)
  {
    ClassifyIsFirstMatch(ToLower(platform));
  }

  lemma ClassifyIsFirstMatch(p: string)
    ensures Classify(p) == FirstMatch(p, Rules, Other)
  {
    RulesFireAsWritten(p);
    assert Rules[0..] == Rules;
    var k := 0;
    while k < |Rules|
      invariant 0 <= k <= |Rules|
      invariant forall j :: 0 <= j < k ==> !Fires(p, Rules[j])
      invariant FirstMatch(p, Rules, Other) == FirstMatch(p, Rules[k..], Other)
    {
      FirstMatchStep(p, Rules, Other, k);
      if Fires(p, Rules[k]) {
        return;
      }
      k := k + 1;
    }
    assert Rules[k..] == [];
  }

  lemma RulesHaveDistinctBadges()
    ensures DistinctBadges(Rules, Other)
  {
  }

  /** Different badges are drawn with different classes, so the classes
      tell which test decided. */
  lemma BadgeClassesDistinct()
    ensures forall a, b :: BadgeClasses(a) == BadgeClasses(b) ==> a == b
  {
    forall b: Badge ensures BadgeOfClasses(BadgeClasses(b)) == b {
      ClassesIdentifyBadge(b);
    }
  }

  /** Reads the badge back from its classes, by their length and, where
      lengths agree, by the end of the last colour name. */
  function BadgeOfClasses(c: string): Badge {
    var n := |c|;
    if n == 37 then TataCliq
    else if n == 44 then Ajio
    else if n == 49 then Official
    else if n == 46 then (if c[n - 5] == 'e' then Amazon else Other)
    else if n == 40 then
      if c[n - 3] == '3' then Nykaa
      else if c[n - 5] == 'k' then Meesho
      else if c[n - 6] == 's' then Myntra
      else Flipkart
    else Other
  }

  lemma ClassesIdentifyBadge(b: Badge)
    ensures BadgeOfClasses(BadgeClasses(b)) == b
  {
    if b.Amazon? || b.Myntra? || b.Flipkart? {
      IdentifyFirstThree(b);
    } else if b.Ajio? || b.TataCliq? || b.Meesho? {
      IdentifyMiddleThree(b);
    } else {
      IdentifyLastThree(b);
    }
  }

  lemma IdentifyFirstThree(b: Badge)
    requires b.Amazon? || b.Myntra? || b.Flipkart?
    ensures BadgeOfClasses(BadgeClasses(b)) == b
  {
  }

  lemma IdentifyMiddleThree(b: Badge)
    requires b.Ajio? || b.TataCliq? || b.Meesho?
    ensures BadgeOfClasses(BadgeClasses(b)) == b
  {
  }

  lemma IdentifyLastThree(b: Badge)
    requires b.Nykaa? || b.Official? || b.Other?
    ensures BadgeOfClasses(BadgeClasses(b)) == b
  {
  }

  /** First match wins: the classes are rule `i`'s exactly when the
      lower-cased name contains one of rule `i`'s keywords and none of an
      earlier rule's. */
  lemma PlatformStyleFirstMatchWins(platform: string, i: int)
    requires 0 <= i < |Rules|
    ensures var p := ToLower(platform);
      (PlatformStyle(platform) == BadgeClasses(Rules[i].badge))
        <==> Fires(p, Rules[i]) && forall j :: 0 <= j < i ==> !Fires(p, Rules[j])
  {
    PlatformStyleIsFirstMatch(platform);
    RulesHaveDistinctBadges();
    BadgeClassesDistinct();
    FirstMatchIs(ToLower(platform), Rules, Other, i);
  }

  /** The indigo default is given exactly when no keyword occurs at all. */
  lemma PlatformStyleDefault(platform: string)
    ensures var p := ToLower(platform);
      PlatformStyle(platform) == BadgeClasses(Other) <==> forall j :: 0 <= j < |Rules| ==> !Fires(p, Rules[j])
  {
    BadgeClassesDistinct();
    PlatformStyleIsFirstMatch(platform);
    RulesHaveDistinctBadges();
    FirstMatchFallback(ToLower(platform), Rules, Other);
  }

  /** The classifier sees only the lower-cased name, so names that differ in
      case are classified alike. */
  lemma PlatformStyleIgnoresCase(platform: string)
    ensures PlatformBadge(ToLower(platform)) == PlatformBadge(platform)
  {
    ToLowerIdempotent(platform);
  }

  /** An Amazon listing on a `.com` domain gets the Amazon badge, not the
      official-store one. */
  lemma AmazonBeatsOfficial(platform: string)
    requires Contains(ToLower(platform), AmazonKey)
    ensures PlatformBadge(platform) == Amazon
  {
  }

  /** The price line: the price as given, or `CHECK PRICE` when it is empty. */
  function PriceLabel(price: string): (shown: string)
    ensures shown != ""
    ensures price != "" ==> shown == price
    ensures price == "" ==> shown == CheckPriceLabel
  {
    if price == "" then CheckPriceLabel else price
  }

  datatype Pointer = Enter | Leave

  /** What the card reports to its hover listener: the object's id on
      entering, null on leaving. */
  function HoverReport(event: Pointer, obj: DetectedObject): (report: Option<string>)
    ensures report.Some? <==> event == Enter
    ensures report.Some? ==> report.value == obj.id
  {
    match event
    case Enter => Some(obj.id)
    case Leave => None
  }
}
