/** The records exchanged with the e-Gov law registry (version 2 of its API)
    and the fixed table of law categories offered as search filters. */
module LawTypes {
  import opened Results
  import opened Decimal
  import opened LexOrder

  /** Identity of a law. */
  datatype LawInfo = LawInfo(
    law_id: string,
    law_num: string,
    law_num_era: Option<string>,
    law_num_year: Option<int>,
    law_num_type: Option<string>,
    law_num_num: Option<string>,
    promulgation_date: Option<string>)

  /** One revision of a law, with the amendment that produced it. */
  datatype RevisionInfo = RevisionInfo(
    law_revision_id: string,
    law_type: string,
    law_title: string,
    law_title_kana: Option<string>,
    abbrev: Option<string>,
    category: Option<string>,
    updated: string,
    amendment_promulgate_date: Option<string>,
    amendment_enforcement_date: Option<string>,
    amendment_enforcement_comment: Option<string>,
    amendment_scheduled_enforcement_date: Option<string>,
    amendment_law_id: Option<string>,
    amendment_law_title: Option<string>,
    amendment_law_title_kana: Option<string>,
    amendment_law_num: Option<string>,
    amendment_type: Option<string>,
    repeal_status: Option<string>,
    repeal_date: Option<string>,
    remain_in_force: Option<bool>,
    mission: Option<string>,
    current_revision_status: Option<string>)

  /** One entry of the law listing: always one identity block and one
      revision block, optionally the current revision as well. */
  datatype Law = Law(
    law_info: LawInfo,
    revision_info: RevisionInfo,
    current_revision_info: Option<RevisionInfo>)

  /** One page of the law listing. The record type declares `laws` and
      `total_count` as always present; the client nevertheless guards against
      their absence, so the model keeps them optional. */
  datatype LawsResponse = LawsResponse(
    laws: Option<seq<Law>>,
    total_count: Option<int>,
    offset: int,
    limit: int)

  /** A revision as listed in a law's revision history; it carries the same
      fields as `RevisionInfo`. */
  type LawRevision = RevisionInfo

  /** The flat record the search returns for one law. */
  datatype AmendmentSummary = AmendmentSummary(
    law_id: string,
    law_num: string,
    law_title: string,
    law_type: string,
    category: Option<string>,
    amendment_promulgate_date: Option<string>,
    amendment_enforcement_date: Option<string>,
    amendment_law_id: Option<string>,
    amendment_law_title: Option<string>,
    amendment_law_num: Option<string>,
    amendment_type: Option<string>,
    mission: Option<string>,
    updated: string,
    law_revision_id: string)

  datatype CategoryDefinition = CategoryDefinition(code: string, name: string, description: Option<string>)

  function Category(code: string, name: string): CategoryDefinition {
    CategoryDefinition(code, name, None)
  }

  /** The category filters offered on the search page, fifty of them, in
      ten blocks of five. */
  const LawCategories: seq<CategoryDefinition> :=
    (CategoryBlock1 + CategoryBlock2 + CategoryBlock3 + CategoryBlock4 + CategoryBlock5)
    + (CategoryBlock6 + CategoryBlock7 + CategoryBlock8 + CategoryBlock9 + CategoryBlock10)

  const CategoryBlock1: seq<CategoryDefinition> := [
    Category("001", "憲法"),
    Category("002", "刑事"),
    Category("003", "財務通則"),
    Category("004", "水産業"),
    Category("005", "観光")
  ]

  const CategoryBlock2: seq<CategoryDefinition> := [
    Category("006", "国会"),
    Category("007", "警察"),
    Category("008", "国有財産"),
    Category("009", "鉱業"),
    Category("010", "郵務")
  ]

  const CategoryBlock3: seq<CategoryDefinition> := [
    Category("011", "行政組織"),
    Category("012", "消防"),
    Category("013", "国税"),
    Category("014", "工業"),
    Category("015", "電気通信")
  ]

  const CategoryBlock4: seq<CategoryDefinition> := [
    Category("016", "国家公務員"),
    Category("017", "国土開発"),
    Category("018", "事業"),
    Category("019", "商業"),
    Category("020", "労働")
  ]

  const CategoryBlock5: seq<CategoryDefinition> := [
    Category("021", "行政手続"),
    Category("022", "土地"),
    Category("023", "国債"),
    Category("024", "金融・保険"),
    Category("025", "環境保全")
  ]

  const CategoryBlock6: seq<CategoryDefinition> := [
    Category("026", "統計"),
    Category("027", "都市計画"),
    Category("028", "教育"),
    Category("029", "外国為替・貿易"),
    Category("030", "厚生")
  ]

  const CategoryBlock7: seq<CategoryDefinition> := [
    Category("031", "地方自治"),
    Category("032", "道路"),
    Category("033", "文化"),
    Category("034", "陸運"),
    Category("035", "社会福祉")
  ]

  const CategoryBlock8: seq<CategoryDefinition> := [
    Category("036", "地方財政"),
    Category("037", "河川"),
    Category("038", "産業通則"),
    Category("039", "海運"),
    Category("040", "社会保険")
  ]

  const CategoryBlock9: seq<CategoryDefinition> := [
    Category("041", "司法"),
    Category("042", "災害対策"),
    Category("043", "農業"),
    Category("044", "航空"),
    Category("045", "防衛")
  ]

  const CategoryBlock10: seq<CategoryDefinition> := [
    Category("046", "民事"),
    Category("047", "建築・住宅"),
    Category("048", "林業"),
    Category("049", "貨物運送"),
    Category("050", "外事")
  ]

  /** The three-digit, zero-padded spelling of 0 <= n < 1000. */
  function ThreeDigitCode(n: nat): (s: string)
    requires n < 1000
    ensures |s| == 3 && AllDigits(s)
  {
    [DigitChar(n / 100), DigitChar(n / 10 % 10), DigitChar(n % 10)]
  }

  /** Which entry a name belongs to, read off its first and last character:
      a binary search over the fifty (first, last) pairs in code-point order,
      -1 for a pair that is not in the table. */
  function NameKeyIndex(first: char, last: char): int {
    if first < '河' || (first == '河' && last < '川') then
      if first < '土' || (first == '土' && last < '地') then
        if first < '国' || (first == '国' && last < '会') then
          if first < '厚' || (first == '厚' && last < '生') then
            if first < '刑' || (first == '刑' && last < '事') then
              if first == '事' && last == '業' then 17 else -1
            else
              if first < '労' || (first == '労' && last < '働') then
                if first == '刑' && last == '事' then 1 else -1
              else
                if first == '労' && last == '働' then 19 else -1
          else
            if first < '司' || (first == '司' && last < '法') then
              if first == '厚' && last == '生' then 29 else -1
            else
              if first < '商' || (first == '商' && last < '業') then
                if first == '司' && last == '法' then 40 else -1
              else
                if first == '商' && last == '業' then 18 else -1
        else
          if first < '国' || (first == '国' && last < '産') then
            if first < '国' || (first == '国' && last < '債') then
              if first == '国' && last == '会' then 5 else -1
            else
              if first < '国' || (first == '国' && last < '員') then
                if first == '国' && last == '債' then 22 else -1
              else
                if first == '国' && last == '員' then 15 else -1
          else
            if first < '国' || (first == '国' && last < '発') then
              if first == '国' && last == '産' then 7 else -1
            else
              if first < '国' || (first == '国' && last < '税') then
                if first == '国' && last == '発' then 16 else -1
              else
                if first == '国' && last == '税' then 12 else -1
      else
        if first < '建' || (first == '建' && last < '宅') then
          if first < '外' || (first == '外' && last < '事') then
            if first < '地' || (first == '地' && last < '政') then
              if first == '土' && last == '地' then 21 else -1
            else
              if first < '地' || (first == '地' && last < '治') then
                if first == '地' && last == '政' then 35 else -1
              else
                if first == '地' && last == '治' then 30 else -1
          else
            if first < '外' || (first == '外' && last < '易') then
              if first == '外' && last == '事' then 49 else -1
            else
              if first < '工' || (first == '工' && last < '業') then
                if first == '外' && last == '易' then 28 else -1
              else
                if first == '工' && last == '業' then 13 else -1
        else
          if first < '文' || (first == '文' && last < '化') then
            if first < '憲' || (first == '憲' && last < '法') then
              if first == '建' && last == '宅' then 46 else -1
            else
              if first < '教' || (first == '教' && last < '育') then
                if first == '憲' && last == '法' then 0 else -1
              else
                if first == '教' && last == '育' then 27 else -1
          else
            if first < '民' || (first == '民' && last < '事') then
              if first < '林' || (first == '林' && last < '業') then
                if first == '文' && last == '化' then 32 else -1
              else
                if first == '林' && last == '業' then 47 else -1
            else
              if first < '水' || (first == '水' && last < '業') then
                if first == '民' && last == '事' then 45 else -1
              else
                if first == '水' && last == '業' then 3 else -1
    else
      if first < '観' || (first == '観' && last < '光') then
        if first < '社' || (first == '社' && last < '祉') then
          if first < '災' || (first == '災' && last < '策') then
            if first < '海' || (first == '海' && last < '運') then
              if first == '河' && last == '川' then 36 else -1
            else
              if first < '消' || (first == '消' && last < '防') then
                if first == '海' && last == '運' then 38 else -1
              else
                if first == '消' && last == '防' then 11 else -1
          else
            if first < '環' || (first == '環' && last < '全') then
              if first == '災' && last == '策' then 41 else -1
            else
              if first < '産' || (first == '産' && last < '則') then
                if first == '環' && last == '全' then 24 else -1
              else
                if first == '産' && last == '則' then 37 else -1
        else
          if first < '航' || (first == '航' && last < '空') then
            if first < '社' || (first == '社' && last < '険') then
              if first == '社' && last == '祉' then 34 else -1
            else
              if first < '統' || (first == '統' && last < '計') then
                if first == '社' && last == '険' then 39 else -1
              else
                if first == '統' && last == '計' then 25 else -1
          else
            if first < '行' || (first == '行' && last < '続') then
              if first == '航' && last == '空' then 43 else -1
            else
              if first < '行' || (first == '行' && last < '織') then
                if first == '行' && last == '続' then 20 else -1
              else
                if first == '行' && last == '織' then 10 else -1
      else
        if first < '郵' || (first == '郵' && last < '務') then
          if first < '貨' || (first == '貨' && last < '送') then
            if first < '警' || (first == '警' && last < '察') then
              if first == '観' && last == '光' then 4 else -1
            else
              if first < '財' || (first == '財' && last < '則') then
                if first == '警' && last == '察' then 6 else -1
              else
                if first == '財' && last == '則' then 2 else -1
          else
            if first < '農' || (first == '農' && last < '業') then
              if first == '貨' && last == '送' then 48 else -1
            else
              if first < '道' || (first == '道' && last < '路') then
                if first == '農' && last == '業' then 42 else -1
              else
                if first == '道' && last == '路' then 31 else -1
        else
          if first < '鉱' || (first == '鉱' && last < '業') then
            if first < '都' || (first == '都' && last < '画') then
              if first == '郵' && last == '務' then 9 else -1
            else
              if first < '金' || (first == '金' && last < '険') then
                if first == '都' && last == '画' then 26 else -1
              else
                if first == '金' && last == '険' then 23 else -1
          else
            if first < '陸' || (first == '陸' && last < '運') then
              if first < '防' || (first == '防' && last < '衛') then
                if first == '鉱' && last == '業' then 8 else -1
              else
                if first == '防' && last == '衛' then 44 else -1
            else
              if first < '電' || (first == '電' && last < '信') then
                if first == '陸' && last == '運' then 33 else -1
              else
                if first == '電' && last == '信' then 14 else -1
  }

  /** What the entry at position i of a category table satisfies: it
      carries the code of i + 1, no description, and a name whose first and
      last characters identify the position. */
  predicate EntryFacts(e: CategoryDefinition, i: nat) {
    && i + 1 < 1000
    && e.code == ThreeDigitCode(i + 1)
    && e.description.None?
    && |e.name| > 0 && NameKeyIndex(e.name[0], e.name[|e.name| - 1]) == i
  }

  /** The entries of `cats` satisfy EntryFacts for positions base, base + 1, ... */
  predicate NumberedFrom(cats: seq<CategoryDefinition>, base: nat) {
    forall i :: 0 <= i < |cats| ==> EntryFacts(cats[i], base + i)
  }

  predicate NumberedTable(cats: seq<CategoryDefinition>) {
    NumberedFrom(cats, 0)
  }

  lemma NumberedAppend(a: seq<CategoryDefinition>, b: seq<CategoryDefinition>, base: nat)
    requires NumberedFrom(a, base) && NumberedFrom(b, base + |a|)
    ensures NumberedFrom(a + b, base)
  {
    forall i | 0 <= i < |a + b| ensures EntryFacts((a + b)[i], base + i) {
      if i < |a| {
        assert (a + b)[i] == a[i];
      } else {
        assert (a + b)[i] == b[i - |a|];
      }
    }
  }

  lemma CatalogueEntries()
    ensures |LawCategories| == 50 && NumberedTable(LawCategories)
  {
    CatalogueFirstHalf();
    CatalogueSecondHalf();
    NumberedAppend(CategoryBlock1 + CategoryBlock2 + CategoryBlock3 + CategoryBlock4 + CategoryBlock5,
      CategoryBlock6 + CategoryBlock7 + CategoryBlock8 + CategoryBlock9 + CategoryBlock10, 0);
  }

  lemma CatalogueFirstHalf()
    ensures |CategoryBlock1 + CategoryBlock2 + CategoryBlock3 + CategoryBlock4 + CategoryBlock5| == 25
    ensures NumberedFrom(CategoryBlock1 + CategoryBlock2 + CategoryBlock3 + CategoryBlock4 + CategoryBlock5, 0)
  {
    CatalogueBlock1();
    CatalogueBlock2();
    NumberedAppend(CategoryBlock1, CategoryBlock2, 0);
    CatalogueBlock3();
    NumberedAppend(CategoryBlock1 + CategoryBlock2, CategoryBlock3, 0);
    CatalogueBlock4();
    NumberedAppend(CategoryBlock1 + CategoryBlock2 + CategoryBlock3, CategoryBlock4, 0);
    CatalogueBlock5();
    NumberedAppend(CategoryBlock1 + CategoryBlock2 + CategoryBlock3 + CategoryBlock4, CategoryBlock5, 0);
  }

  lemma CatalogueSecondHalf()
    ensures |CategoryBlock6 + CategoryBlock7 + CategoryBlock8 + CategoryBlock9 + CategoryBlock10| == 25
    ensures NumberedFrom(CategoryBlock6 + CategoryBlock7 + CategoryBlock8 + CategoryBlock9 + CategoryBlock10, 25)
  {
    CatalogueBlock6();
    CatalogueBlock7();
    NumberedAppend(CategoryBlock6, CategoryBlock7, 25);
    CatalogueBlock8();
    NumberedAppend(CategoryBlock6 + CategoryBlock7, CategoryBlock8, 25);
    CatalogueBlock9();
    NumberedAppend(CategoryBlock6 + CategoryBlock7 + CategoryBlock8, CategoryBlock9, 25);
    CatalogueBlock10();
    NumberedAppend(CategoryBlock6 + CategoryBlock7 + CategoryBlock8 + CategoryBlock9, CategoryBlock10, 25);
  }

  lemma CatalogueBlock1()
    ensures |CategoryBlock1| == 5 && NumberedFrom(CategoryBlock1, 0)
  {
    forall i | 0 <= i < 5 ensures EntryFacts(CategoryBlock1[i], 0 + i) {
      assert i == 0 || i == 1 || i == 2 || i == 3 || i == 4;
    }
  }

  lemma CatalogueBlock2()
    ensures |CategoryBlock2| == 5 && NumberedFrom(CategoryBlock2, 5)
  {
    forall i | 0 <= i < 5 ensures EntryFacts(CategoryBlock2[i], 5 + i) {
      assert i == 0 || i == 1 || i == 2 || i == 3 || i == 4;
    }
  }

  lemma CatalogueBlock3()
    ensures |CategoryBlock3| == 5 && NumberedFrom(CategoryBlock3, 10)
  {
    forall i | 0 <= i < 5 ensures EntryFacts(CategoryBlock3[i], 10 + i) {
      assert i == 0 || i == 1 || i == 2 || i == 3 || i == 4;
    }
  }

  lemma CatalogueBlock4()
    ensures |CategoryBlock4| == 5 && NumberedFrom(CategoryBlock4, 15)
  {
    forall i | 0 <= i < 5 ensures EntryFacts(CategoryBlock4[i], 15 + i) {
      assert i == 0 || i == 1 || i == 2 || i == 3 || i == 4;
    }
  }

  lemma CatalogueBlock5()
    ensures |CategoryBlock5| == 5 && NumberedFrom(CategoryBlock5, 20)
  {
    forall i | 0 <= i < 5 ensures EntryFacts(CategoryBlock5[i], 20 + i) {
      assert i == 0 || i == 1 || i == 2 || i == 3 || i == 4;
    }
  }

  lemma CatalogueBlock6()
    ensures |CategoryBlock6| == 5 && NumberedFrom(CategoryBlock6, 25)
  {
    forall i | 0 <= i < 5 ensures EntryFacts(CategoryBlock6[i], 25 + i) {
      assert i == 0 || i == 1 || i == 2 || i == 3 || i == 4;
    }
  }

  lemma CatalogueBlock7()
    ensures |CategoryBlock7| == 5 && NumberedFrom(CategoryBlock7, 30)
  {
    forall i | 0 <= i < 5 ensures EntryFacts(CategoryBlock7[i], 30 + i) {
      assert i == 0 || i == 1 || i == 2 || i == 3 || i == 4;
    }
  }

  lemma CatalogueBlock8()
    ensures |CategoryBlock8| == 5 && NumberedFrom(CategoryBlock8, 35)
  {
    forall i | 0 <= i < 5 ensures EntryFacts(CategoryBlock8[i], 35 + i) {
      assert i == 0 || i == 1 || i == 2 || i == 3 || i == 4;
    }
  }

  lemma CatalogueBlock9()
    ensures |CategoryBlock9| == 5 && NumberedFrom(CategoryBlock9, 40)
  {
    forall i | 0 <= i < 5 ensures EntryFacts(CategoryBlock9[i], 40 + i) {
      assert i == 0 || i == 1 || i == 2 || i == 3 || i == 4;
    }
  }

  lemma CatalogueBlock10()
    ensures |CategoryBlock10| == 5 && NumberedFrom(CategoryBlock10, 45)
  {
    forall i | 0 <= i < 5 ensures EntryFacts(CategoryBlock10[i], 45 + i) {
      assert i == 0 || i == 1 || i == 2 || i == 3 || i == 4;
    }
  }

  lemma ThreeDigitCodeValue(n: nat)
    requires n < 1000
    ensures DigitsValue(ThreeDigitCode(n)) == n
  {
    var s := ThreeDigitCode(n);
    var a, b, c := n / 100, n / 10 % 10, n % 10;
    var t, u := s[1..], s[1..][1..];
    assert u == [s[2]] && u[1..] == [];
    assert Digit(s[0]) == a && Digit(t[0]) == b && Digit(u[0]) == c;
    assert DigitCount(u) == 1 && DigitCount(t) == 2;
    assert Pow10(1) == 10 && Pow10(2) == 100;
    assert DigitsValue(u) == c;
    assert DigitsValue(t) == b * 10 + c;
    assert DigitsValue(s) == a * 100 + b * 10 + c;
    assert n == a * 100 + b * 10 + c by {
      assert n == (n / 10) * 10 + c;
      assert n / 10 == a * 10 + b;
    }
  }

  predicate CodesAscending(cats: seq<CategoryDefinition>) {
    forall i, j :: 0 <= i < j < |cats| ==> LexLt(cats[i].code, cats[j].code)
  }

  predicate CodesAreThreeDigits(cats: seq<CategoryDefinition>) {
    forall i :: 0 <= i < |cats| ==> |cats[i].code| == 3 && AllDigits(cats[i].code)
  }

  predicate NamesDistinct(cats: seq<CategoryDefinition>) {
    forall i, j :: 0 <= i < j < |cats| ==> cats[i].name != cats[j].name
  }

  predicate NoDescriptions(cats: seq<CategoryDefinition>) {
    forall i :: 0 <= i < |cats| ==> cats[i].description.None?
  }

  /** In a numbered table, codes are three digits in strictly ascending string
      order (so no code occurs twice), no two names coincide and no entry has
      a description. */
  lemma NumberedTableProperties(cats: seq<CategoryDefinition>)
    requires NumberedTable(cats)
    ensures CodesAreThreeDigits(cats) && CodesAscending(cats)
    ensures NamesDistinct(cats) && NoDescriptions(cats)
  {
    forall i | 0 <= i < |cats|
      ensures |cats[i].code| == 3 && AllDigits(cats[i].code) && cats[i].description.None?
    {
      assert EntryFacts(cats[i], i);
    }
    forall i, j | 0 <= i < j < |cats|
      ensures LexLt(cats[i].code, cats[j].code) && cats[i].name != cats[j].name
    {
      EntriesApart(cats[i], i, cats[j], j);
    }
  }

  /** Two entries at different positions differ in code order and in name. */
  lemma EntriesApart(a: CategoryDefinition, i: nat, b: CategoryDefinition, j: nat)
    requires EntryFacts(a, i) && EntryFacts(b, j) && i < j
    ensures LexLt(a.code, b.code) && a.name != b.name
  {
    CodesApart(a.code, i, b.code, j);
    NamesApart(a.name, i, b.name, j);
  }

  lemma CodesApart(x: string, i: nat, y: string, j: nat)
    requires i < j < 999 && x == ThreeDigitCode(i + 1) && y == ThreeDigitCode(j + 1)
    ensures LexLt(x, y)
  {
    ThreeDigitCodesOrdered(i + 1, j + 1);
  }

  lemma NamesApart(x: string, i: nat, y: string, j: nat)
    requires |x| > 0 && NameKeyIndex(x[0], x[|x| - 1]) == i
    requires |y| > 0 && NameKeyIndex(y[0], y[|y| - 1]) == j
    requires i != j
    ensures x != y
  {
    KeyedApart(NameKeyIndex, x, y);
  }

  /** Strings with different keys differ. */
  lemma KeyedApart(key: (char, char) -> int, x: string, y: string)
    requires |x| > 0 && |y| > 0 && key(x[0], x[|x| - 1]) != key(y[0], y[|y| - 1])
    ensures x != y
  {
  }

  /** Zero-padded codes compare as the numbers they spell. */
  lemma ThreeDigitCodesOrdered(m: nat, n: nat)
    requires m < n < 1000
    ensures LexLt(ThreeDigitCode(m), ThreeDigitCode(n))
  {
    var a, b := ThreeDigitCode(m), ThreeDigitCode(n);
    ThreeDigitCodeValue(m);
    ThreeDigitCodeValue(n);
    DigitStringsSameShape(a, b);
    DigitStringsSameShape(b, a);
    SameShapeOrder(a, b);
    SameShapeOrder(b, a);
  }

  /** The category table: fifty entries coded `001` to `050` in ascending
      order, with pairwise distinct names and no descriptions. */
  lemma CatalogueProperties()
    ensures |LawCategories| == 50
    ensures CodesAreThreeDigits(LawCategories) && CodesAscending(LawCategories)
    ensures NamesDistinct(LawCategories) && NoDescriptions(LawCategories)
  {
    CatalogueEntries();
    NumberedTableProperties(LawCategories);
  }
}
