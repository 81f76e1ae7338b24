/** ReceiptCategorizationService.categorize: weighted keyword scores, in tenths, and the first maximum. */
module ReceiptCategorizer {
  import opened Prelude
  import opened KeywordTables

  /** The order of the keyword table, and so of the score dictionary. */
  const CATEGORIES := [Groceries, Transport, Entertainment, Restaurants, Shopping, Healthcare, Utilities, Subscriptions]

  /** The categories that have item keywords. */
  const ITEM_CATEGORIES := [Groceries, Restaurants, Healthcare]

  datatype Tables = Tables(keywords: Category -> seq<string>, itemKeywords: Category -> seq<string>)

  function SourceTables(): Tables {
    Tables(Keywords, ItemKeywords)
  }

  /** Texts in lower case, the amount in cents. */
  datatype Receipt = Receipt(merchant: string, hint: string, items: seq<string>, amount: int)

  /** Python's `needle in text`. */
  predicate Contains(text: string, needle: string) {
    exists i :: 0 <= i <= |text| && StandsAt(text, needle, i)
  }

  predicate StandsAt(text: string, needle: string, i: nat)
    requires i <= |text|
  {
    i + |needle| <= |text| && text[i..i + |needle|] == needle
  }

  predicate Matches(keywords: seq<string>, text: string) {
    exists i :: 0 <= i < |keywords| && Contains(text, keywords[i])
  }

  // ---------- The score ----------

  const MERCHANT_WEIGHT := 30
  const HINT_WEIGHT := 10
  const ITEM_WEIGHT := 5

  function CountMatching(keywords: seq<string>, items: seq<string>): nat {
    if items == [] then 0
    else CountMatching(keywords, items[..|items| - 1]) + if Matches(keywords, items[|items| - 1]) then 1 else 0
  }

  function ItemScore(t: Tables, items: seq<string>, c: Category): nat {
    if c in ITEM_CATEGORIES then ITEM_WEIGHT * CountMatching(t.itemKeywords(c), items) else 0
  }

  function AmountScore(amount: int, c: Category): nat {
    if 0 < amount < 1000 then (if c.Restaurants? then 3 else if c.Transport? then 2 else 0)
    else if 1000 <= amount < 10000 then (if c.Groceries? || c.Restaurants? then 2 else 0)
    else 0
  }

  function Score(t: Tables, r: Receipt, c: Category): nat {
    (if Matches(t.keywords(c), r.merchant) then MERCHANT_WEIGHT else 0)
    + (if Matches(t.keywords(c), r.hint) then HINT_WEIGHT else 0)
    + ItemScore(t, r.items, c) + AmountScore(r.amount, c)
  }

  /** Some keyword stands somewhere in the text. */
  ghost predicate Occurs(keywords: seq<string>, text: string) {
    exists k, a, b :: k in keywords && text == a + k + b
  }

  lemma MatchesMeaning(keywords: seq<string>, text: string)
    ensures Matches(keywords, text) <==> Occurs(keywords, text)
  {
    if Matches(keywords, text) {
      var i :| 0 <= i < |keywords| && Contains(text, keywords[i]);
      var j :| 0 <= j <= |text| && StandsAt(text, keywords[i], j);
      assert keywords[i] in keywords && text == text[..j] + keywords[i] + text[j + |keywords[i]|..];
    }
    if Occurs(keywords, text) {
      var k, a, b :| k in keywords && text == a + k + b;
      var i :| 0 <= i < |keywords| && keywords[i] == k;
      assert StandsAt(text, k, |a|);
    }
  }

  /** In tenths: 30 for the merchant, 10 for the hint, 5 for each item, and 3 or 2 for an amount below 10 or below 100. */
  lemma ScoreMeaning(t: Tables, r: Receipt, c: Category)
    ensures Score(t, r, c)
            == (if Occurs(t.keywords(c), r.merchant) then 30 else 0) + (if Occurs(t.keywords(c), r.hint) then 10 else 0)
               + (if c.Groceries? || c.Restaurants? || c.Healthcare? then 5 * CountMatching(t.itemKeywords(c), r.items) else 0)
               + (if 0 < r.amount < 1000 && c.Restaurants? then 3
                  else if 0 < r.amount < 1000 && c.Transport? then 2
                  else if 1000 <= r.amount < 10000 && (c.Groceries? || c.Restaurants?) then 2 else 0)
  {
    MatchesMeaning(t.keywords(c), r.merchant);
    MatchesMeaning(t.keywords(c), r.hint);
  }

  /** Category i is the first with the highest score, and that score is positive; None stands for "other". */
  ghost predicate IsChoice(t: Tables, r: Receipt, choice: Option<Category>) {
    match choice
    case None => forall c :: Score(t, r, c) == 0
    case Some(best) =>
      && Score(t, r, best) > 0
      && (forall c :: Score(t, r, c) <= Score(t, r, best))
      && forall i, j :: 0 <= i < j < |CATEGORIES| && CATEGORIES[j] == best ==> Score(t, r, CATEGORIES[i]) < Score(t, r, best)
  }

  function Position(c: Category): (i: nat)
    ensures i < |CATEGORIES| && CATEGORIES[i] == c
  {
    match c
    case Groceries => 0
    case Transport => 1
    case Entertainment => 2
    case Restaurants => 3
    case Shopping => 4
    case Healthcare => 5
    case Utilities => 6
    case Subscriptions => 7
  }

  lemma ListedOnce(i: nat)
    requires i < |CATEGORIES|
    ensures Position(CATEGORIES[i]) == i
  {
  }

  /** Two receipts with the same scores get the same category. */
  lemma ChoiceIsUnique(t: Tables, r: Receipt, r': Receipt, a: Option<Category>, b: Option<Category>)
    requires IsChoice(t, r, a) && IsChoice(t, r', b)
    requires forall c :: Score(t, r, c) == Score(t, r', c)
    ensures a == b
  {
    if a.Some? && b.Some? {
      var i, j := Position(a.value), Position(b.value);
      assert CATEGORIES[i] == a.value && CATEGORIES[j] == b.value;
    }
  }

  /** The amount alone: restaurants below 10, groceries below 100, otherwise nothing to go by. */
  lemma AmountAlone(t: Tables, r: Receipt, choice: Option<Category>)
    requires IsChoice(t, r, choice) && r.items == []
    requires forall c: Category :: !Occurs(t.keywords(c), r.merchant) && !Occurs(t.keywords(c), r.hint)
    ensures choice == if 0 < r.amount < 1000 then Some(Restaurants)
                      else if 1000 <= r.amount < 10000 then Some(Groceries) else None
  {
    forall c ensures Score(t, r, c) == AmountScore(r.amount, c) {
      ScoreMeaning(t, r, c);
    }
    var small, middle := AmountScore(r.amount, Restaurants), AmountScore(r.amount, Groceries);
    assert Score(t, r, Restaurants) == small && Score(t, r, Groceries) == middle;
    assert CATEGORIES[0] == Groceries && CATEGORIES[3] == Restaurants;
  }

  // ---------- The order of the items does not matter ----------

  lemma {:induction false} CountConcat(keywords: seq<string>, a: seq<string>, b: seq<string>)
    ensures CountMatching(keywords, a + b) == CountMatching(keywords, a) + CountMatching(keywords, b)
  {
    if b == [] {
      assert a + b == a;
    } else {
      assert (a + b)[..|a + b| - 1] == a + b[..|b| - 1];
      CountConcat(keywords, a, b[..|b| - 1]);
    }
  }

  lemma MultisetFront<T>(a: seq<T>)
    requires a != []
    ensures multiset(a[..|a| - 1]) == multiset(a) - multiset{a[|a| - 1]}
  {
    assert a == a[..|a| - 1] + [a[|a| - 1]];
  }

  lemma MultisetWithout<T>(b: seq<T>, i: nat)
    requires i < |b|
    ensures multiset(b[..i] + b[i + 1..]) == multiset(b) - multiset{b[i]}
  {
    assert b == b[..i] + ([b[i]] + b[i + 1..]);
  }

  lemma MultisetRest<T>(a: seq<T>, b: seq<T>, i: nat)
    requires a != [] && i < |b| && b[i] == a[|a| - 1] && multiset(a) == multiset(b)
    ensures multiset(a[..|a| - 1]) == multiset(b[..i] + b[i + 1..])
  {
    MultisetFront(a);
    MultisetWithout(b, i);
  }

  lemma {:induction false} CountIgnoresOrder(keywords: seq<string>, a: seq<string>, b: seq<string>)
    requires multiset(a) == multiset(b)
    ensures CountMatching(keywords, a) == CountMatching(keywords, b)
    decreases |a|
  {
    if a == [] {
      assert |multiset(b)| == 0;
    } else {
      var x := a[|a| - 1];
      assert x in multiset(b);
      var i :| 0 <= i < |b| && b[i] == x;
      MultisetRest(a, b, i);
      CountIgnoresOrder(keywords, a[..|a| - 1], b[..i] + b[i + 1..]);
      CountWithout(keywords, b, i);
    }
  }

  lemma CountWithout(keywords: seq<string>, b: seq<string>, i: nat)
    requires i < |b|
    ensures CountMatching(keywords, b) ==
            CountMatching(keywords, b[..i] + b[i + 1..]) + if Matches(keywords, b[i]) then 1 else 0
  {
    var p, q := b[..i], b[i + 1..];
    assert b == p + [b[i]] + q;
    CountConcat(keywords, p, q);
    CountConcat(keywords, p + [b[i]], q);
    assert (p + [b[i]])[..i] == p;
  }

  /** Permuting the items leaves the category as it is. */
  lemma ItemOrderIsIrrelevant(t: Tables, r: Receipt, items: seq<string>, a: Option<Category>, b: Option<Category>)
    requires multiset(items) == multiset(r.items)
    requires IsChoice(t, r, a) && IsChoice(t, r.(items := items), b)
    ensures a == b
  {
    forall c ensures Score(t, r, c) == Score(t, r.(items := items), c) {
      CountIgnoresOrder(t.itemKeywords(c), r.items, items);
    }
    ChoiceIsUnique(t, r, r.(items := items), a, b);
  }

  // ---------- The merchant decides ----------

  predicate MerchantMatches(t: Tables, r: Receipt, c: Category) {
    Matches(t.keywords(c), r.merchant)
  }

  lemma {:induction false} CountBound(keywords: seq<string>, items: seq<string>)
    ensures CountMatching(keywords, items) <= |items|
  {
    if items != [] {
      CountBound(keywords, items[..|items| - 1]);
    }
  }

  /** With at most three items everything but the merchant is worth at most 2.8. */
  lemma MerchantDominates(t: Tables, r: Receipt, choice: Option<Category>, matching: Category)
    requires |r.items| <= 3 && IsChoice(t, r, choice) && MerchantMatches(t, r, matching)
    ensures choice.Some? && MerchantMatches(t, r, choice.value)
  {
    assert Score(t, r, matching) >= MERCHANT_WEIGHT;
    if choice.Some? {
      CountBound(t.itemKeywords(choice.value), r.items);
    }
  }

  ghost predicate MerchantPrevails(t: Tables, r: Receipt, choice: Option<Category>, matching: Category) {
    IsChoice(t, r, choice) && MerchantMatches(t, r, matching) ==> choice.Some? && MerchantMatches(t, r, choice.value)
  }

  /** With these tables, on every receipt with n items, a category the merchant matches is chosen when there is one. */
  ghost predicate AlwaysDominates(t: Tables, n: nat) {
    forall r: Receipt, choice, matching :: |r.items| == n ==> MerchantPrevails(t, r, choice, matching)
  }

  function ManyItems(merchant: string, hint: string, item: string, n: nat): Receipt {
    Receipt(merchant, hint, seq(n, _ => item), 500)
  }

  lemma {:induction false} CountAll(keywords: seq<string>, items: seq<string>)
    requires forall i :: 0 <= i < |items| ==> Matches(keywords, items[i])
    ensures CountMatching(keywords, items) == |items|
  {
    if items != [] {
      CountAll(keywords, items[..|items| - 1]);
    }
  }

  lemma {:induction false} CountNone(keywords: seq<string>, items: seq<string>)
    requires forall i :: 0 <= i < |items| ==> !Matches(keywords, items[i])
    ensures CountMatching(keywords, items) == 0
  {
    if items != [] {
      CountNone(keywords, items[..|items| - 1]);
    }
  }

  /** Words that speak for one category only: a merchant for entertainment, a hint and an item for restaurants. */
  ghost predicate Distinctive(t: Tables, merchant: string, hint: string, item: string) {
    && (forall c :: Matches(t.keywords(c), merchant) <==> c.Entertainment?)
    && (forall c :: Matches(t.keywords(c), hint) <==> c.Restaurants?)
    && (forall c :: c in ITEM_CATEGORIES ==> (Matches(t.itemKeywords(c), item) <==> c.Restaurants?))
  }

  /** From four items on, a hint, small change and the items outweigh the merchant. */
  lemma ItemsOutweighMerchant(t: Tables, merchant: string, hint: string, item: string, n: nat)
    requires n >= 4 && Distinctive(t, merchant, hint, item)
    ensures var r := ManyItems(merchant, hint, item, n);
            && IsChoice(t, r, Some(Restaurants)) && MerchantMatches(t, r, Entertainment)
            && !MerchantMatches(t, r, Restaurants)
  {
    var r := ManyItems(merchant, hint, item, n);
    forall c: Category ensures ItemScore(t, r.items, c) == if c.Restaurants? then 5 * n else 0 {
      if c.Restaurants? {
        assert c in ITEM_CATEGORIES;
        CountAll(t.itemKeywords(c), r.items);
      } else if c in ITEM_CATEGORIES {
        CountNone(t.itemKeywords(c), r.items);
      }
    }
    assert Score(t, r, Restaurants) == 10 + 5 * n + 3;
    assert forall c: Category :: !c.Restaurants? ==> Score(t, r, c) <= 30;
  }

  /** With any tables that have such words, three items is exactly how far the merchant's dominance reaches. */
  lemma DominanceIsExact(t: Tables, merchant: string, hint: string, item: string, n: nat)
    requires Distinctive(t, merchant, hint, item)
    ensures AlwaysDominates(t, n) <==> n <= 3
  {
    if n <= 3 {
      forall r: Receipt, choice, matching | |r.items| == n ensures MerchantPrevails(t, r, choice, matching) {
        if IsChoice(t, r, choice) && MerchantMatches(t, r, matching) {
          MerchantDominates(t, r, choice, matching);
        }
      }
    } else {
      ItemsOutweighMerchant(t, merchant, hint, item, n);
      assert !MerchantPrevails(t, ManyItems(merchant, hint, item, n), Some(Restaurants), Entertainment);
    }
  }

  // ---------- The tables have such words ----------

  /** The keyword is longer than the text, or its first or last letter does not occur there. */
  predicate Foreign(text: string, keyword: string) {
    |keyword| > |text| || (keyword != [] && (keyword[0] !in text || keyword[|keyword| - 1] !in text))
  }

  lemma StandingLetters(text: string, keyword: string, i: nat, j: nat)
    requires i <= |text| && StandsAt(text, keyword, i) && j < |keyword|
    ensures keyword[j] in text
  {
    assert text[i..i + |keyword|][j] == text[i + j];
  }

  lemma ForeignIsAbsent(text: string, keyword: string)
    requires Foreign(text, keyword)
    ensures !Contains(text, keyword)
  {
    if Contains(text, keyword) {
      var i :| 0 <= i <= |text| && StandsAt(text, keyword, i);
      StandingLetters(text, keyword, i, if keyword[0] !in text then 0 else |keyword| - 1);
    }
  }

  lemma ForeignMatchNothing(text: string, keywords: seq<string>)
    requires forall i :: 0 <= i < |keywords| ==> Foreign(text, keywords[i])
    ensures !Matches(keywords, text)
  {
    forall i | 0 <= i < |keywords| ensures !Contains(text, keywords[i]) {
      ForeignIsAbsent(text, keywords[i]);
    }
  }

  lemma KeywordMatches(keywords: seq<string>, i: nat)
    requires i < |keywords|
    ensures Matches(keywords, keywords[i])
  {
    assert StandsAt(keywords[i], keywords[i], 0);
  }

  predicate ShortWord(text: string) {
    |text| == 3 && forall i :: 0 <= i < 3 ==> text[i] in {'a', 'm', 'c', 'k', 'f'}
  }

  lemma ShortWordIsNoShop(text: string, c: Category)
    requires ShortWord(text) && (c.Groceries? || c.Shopping?)
    ensures !Matches(Keywords(c), text)
  {
    ForeignMatchNothing(text, Keywords(c));
  }

  lemma ShortWordIsNoTransport(text: string)
    requires ShortWord(text)
    ensures !Matches(Keywords(Transport), text)
  {
    ForeignMatchNothing(text, Keywords(Transport));
  }

  lemma ShortWordIsNoService(text: string, c: Category)
    requires ShortWord(text) && (c.Healthcare? || c.Utilities? || c.Subscriptions?)
    ensures !Matches(Keywords(c), text)
  {
    ForeignMatchNothing(text, Keywords(c));
  }

  lemma ShortWordMatchesNothing(text: string, c: Category)
    requires ShortWord(text) && !c.Entertainment? && !c.Restaurants?
    ensures !Matches(Keywords(c), text)
  {
    if c.Transport? {
      ShortWordIsNoTransport(text);
    } else if c.Groceries? || c.Shopping? {
      ShortWordIsNoShop(text, c);
    } else {
      ShortWordIsNoService(text, c);
    }
  }

  lemma MerchantWord(c: Category)
    ensures Matches(Keywords(c), "amc") <==> c.Entertainment?
  {
    if c.Entertainment? {
      KeywordMatches(Keywords(c), 4);
    } else if c.Restaurants? {
      ForeignMatchNothing("amc", Keywords(c));
    } else {
      ShortWordMatchesNothing("amc", c);
    }
  }

  lemma HintWord(c: Category)
    ensures Matches(Keywords(c), "kfc") <==> c.Restaurants?
  {
    if c.Restaurants? {
      KeywordMatches(Keywords(c), 7);
    } else if c.Entertainment? {
      ForeignMatchNothing("kfc", Keywords(c));
    } else {
      ShortWordMatchesNothing("kfc", c);
    }
  }

  lemma ItemWord(c: Category)
    ensures Matches(ItemKeywords(c), "tea") <==> c.Restaurants?
  {
    if c.Restaurants? {
      KeywordMatches(ItemKeywords(c), 5);
    } else {
      ForeignMatchNothing("tea", ItemKeywords(c));
    }
  }

  /** On the service's own tables the merchant decides for up to three items and for no more. */
  lemma SourceDominance(n: nat)
    ensures AlwaysDominates(SourceTables(), n) <==> n <= 3
  {
    forall c: Category ensures Matches(SourceTables().keywords(c), "amc") <==> c.Entertainment? {
      MerchantWord(c);
    }
    forall c: Category ensures Matches(SourceTables().keywords(c), "kfc") <==> c.Restaurants? {
      HintWord(c);
    }
    forall c: Category ensures Matches(SourceTables().itemKeywords(c), "tea") <==> c.Restaurants? {
      ItemWord(c);
    }
    DominanceIsExact(SourceTables(), "amc", "kfc", "tea", n);
  }

  // ---------- The class ----------

  class ReceiptCategorizationService {
    const tables: Tables

    constructor ()
      ensures tables == SourceTables()
    {
      tables := SourceTables();
    }

    /** The keyword loop with its break. */
    method AnyKeyword(keywords: seq<string>, text: string) returns (found: bool)
      ensures found == Matches(keywords, text)
    {
      for i := 0 to |keywords|
        invariant forall j :: 0 <= j < i ==> !Contains(text, keywords[j])
      {
        if Contains(text, keywords[i]) {
          return true;
        }
      }
      return false;
    }

    /** 1. The merchant's name. */
    method MerchantScores(r: Receipt) returns (scores: map<Category, int>)
      ensures forall c :: c in scores && scores[c] == if Matches(tables.keywords(c), r.merchant) then 30 else 0
    {
      scores := map[];
      for i := 0 to |CATEGORIES|
        invariant forall c :: Position(c) < i ==>
                    c in scores && scores[c] == if Matches(tables.keywords(c), r.merchant) then MERCHANT_WEIGHT else 0
      {
        ListedOnce(i);
        var score := 0;
        var found := AnyKeyword(tables.keywords(CATEGORIES[i]), r.merchant);
        if found {
          score := score + MERCHANT_WEIGHT;
        }
        scores := scores[CATEGORIES[i] := score];
      }
    }

    /** 2. The hint. */
    method AddHint(r: Receipt, before: map<Category, int>) returns (scores: map<Category, int>)
      requires forall c :: c in before
      ensures forall c :: c in scores &&
                scores[c] == before[c] + if Matches(tables.keywords(c), r.hint) then 10 else 0
    {
      scores := before;
      for i := 0 to |CATEGORIES|
        invariant forall c :: c in scores &&
                    scores[c] == before[c] + if Position(c) < i && Matches(tables.keywords(c), r.hint) then HINT_WEIGHT else 0
      {
        ListedOnce(i);
        var found := AnyKeyword(tables.keywords(CATEGORIES[i]), r.hint);
        if found {
          scores := scores[CATEGORIES[i] := scores[CATEGORIES[i]] + HINT_WEIGHT];
        }
      }
    }

    /** 3. The items, for one category. */
    method AddItemsOf(c: Category, items: seq<string>, before: map<Category, int>) returns (scores: map<Category, int>)
      requires c in before
      ensures scores == before[c := before[c] + 5 * CountMatching(tables.itemKeywords(c), items)]
    {
      scores := before;
      var n := 0;
      while n < |items|
        invariant n <= |items|
        invariant scores == before[c := before[c] + ITEM_WEIGHT * CountMatching(tables.itemKeywords(c), items[..n])]
      {
        var found := AnyKeyword(tables.itemKeywords(c), items[n]);
        if found {
          scores := scores[c := scores[c] + ITEM_WEIGHT];
        }
        assert items[..n + 1][..n] == items[..n];
        n := n + 1;
      }
      assert items[..n] == items;
    }

    method AddItems(r: Receipt, before: map<Category, int>) returns (scores: map<Category, int>)
      requires forall c :: c in before
      ensures forall c :: c in scores && scores[c] == before[c] + ItemScore(tables, r.items, c)
    {
      scores := before;
      for i := 0 to |ITEM_CATEGORIES|
        invariant forall c :: c in scores &&
                    scores[c] == before[c] + if c in ITEM_CATEGORIES[..i] then ItemScore(tables, r.items, c) else 0
      {
        assert ITEM_CATEGORIES[..i + 1] == ITEM_CATEGORIES[..i] + [ITEM_CATEGORIES[i]];
        scores := AddItemsOf(ITEM_CATEGORIES[i], r.items, scores);
      }
      assert ITEM_CATEGORIES[..|ITEM_CATEGORIES|] == ITEM_CATEGORIES;
    }

    /** 4. The amount. */
    method AddAmount(r: Receipt, before: map<Category, int>) returns (scores: map<Category, int>)
      requires forall c :: c in before
      ensures forall c :: c in scores && scores[c] == before[c] + AmountScore(r.amount, c)
      ensures 0 < r.amount < 1000 ==> scores[Restaurants] == before[Restaurants] + 3 && scores[Transport] == before[Transport] + 2
      ensures 1000 <= r.amount < 10000 ==> scores[Groceries] == before[Groceries] + 2 && scores[Restaurants] == before[Restaurants] + 2
    {
      scores := before;
      if r.amount > 0 {
        if r.amount < 1000 {
          scores := scores[Restaurants := scores[Restaurants] + 3];
          scores := scores[Transport := scores[Transport] + 2];
        } else if 1000 <= r.amount < 10000 {
          scores := scores[Groceries := scores[Groceries] + 2];
          scores := scores[Restaurants := scores[Restaurants] + 2];
        }
      }
    }

    /** Python's max over the dictionary's items: the first of the highest. */
    method FirstMax(scores: map<Category, int>) returns (best: Category)
      requires forall c :: c in scores
      ensures forall c :: scores[c] <= scores[best]
      ensures forall i, j :: 0 <= i < j < |CATEGORIES| && CATEGORIES[j] == best ==> scores[CATEGORIES[i]] < scores[best]
    {
      best := CATEGORIES[0];
      for i := 1 to |CATEGORIES|
        invariant Position(best) < i
        invariant forall c :: Position(c) < i ==> scores[c] <= scores[best]
        invariant forall c :: Position(c) < Position(best) ==> scores[c] < scores[best]
      {
        ListedOnce(i);
        if scores[CATEGORIES[i]] > scores[best] {
          best := CATEGORIES[i];
        }
      }
      forall i, j | 0 <= i < j < |CATEGORIES| && CATEGORIES[j] == best ensures scores[CATEGORIES[i]] < scores[best] {
        ListedOnce(i);
        ListedOnce(j);
      }
    }

    method Categorize(r: Receipt) returns (choice: Option<Category>)
      ensures IsChoice(tables, r, choice)
    {
      var scores := MerchantScores(r);
      scores := AddHint(r, scores);
      scores := AddItems(r, scores);
      scores := AddAmount(r, scores);
      assert forall c :: scores[c] == Score(tables, r, c);
      var best := FirstMax(scores);
      choice := if scores[best] > 0 then Some(best) else None;
    }
  }
}
