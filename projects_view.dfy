/** The project-list screen: the search filter, the stable sort applied to
    every section when data arrives, the sub-lists behind each tab with their
    descending sort, the row colour, the choice of deadline offset and the
    agreement between a tab's badge count and the list it shows. */
module ProjectsView {
  import opened Wrappers
  import opened Text
  import opened Lists
  import opened Sorting

  /** One project as the list receives it; every attribute may be missing. */
  datatype Item = Item(
    id: Option<int>,
    client: Option<string>,
    city: Option<string>,
    projectStatus: Option<string>,
    category: Option<string>,
    details: Option<string>,
    vistoriaOpinion: Option<string>,
    installDate: Option<string>,
    deadline: Option<string>,
    daysSinceDocConf: Option<int>)

  /** `(v || '')` for a text attribute. */
  function OrEmpty(v: Option<string>): string {
    v.GetOr("")
  }

  /** `(v || 0)` for a number attribute. */
  function OrZero(v: Option<int>): int {
    v.GetOr(0)
  }

  // ---------------------------------------------------------------------
  // The search filter

  /** The search test: the lower-cased client or city contains the
      lower-cased term. */
  predicate Matches(item: Item, term: string) {
    Contains(Lower(OrEmpty(item.client)), Lower(term)) || Contains(Lower(OrEmpty(item.city)), Lower(term))
  }

  function Matcher(term: string): Item -> bool {
    item => Matches(item, term)
  }

  /** `getFilteredData(dataList)` with the current search term. */
  function GetFilteredData(dataList: Option<seq<Item>>, term: string): (r: seq<Item>)
    ensures |r| <= |dataList.GetOr([])|
  {
    match dataList
    case None => []
    case Some(l) => if term == "" then l else Filter(l, Matcher(term))
  }

  /** No list gives the empty list; an empty term gives the list unchanged;
      otherwise the result is an order-preserving subsequence holding exactly
      the matching items. */
  lemma GetFilteredDataSpec(dataList: Option<seq<Item>>, term: string)
    ensures dataList.None? ==> GetFilteredData(dataList, term) == []
    ensures dataList.Some? && term == "" ==> GetFilteredData(dataList, term) == dataList.value
    ensures dataList.Some? && term != "" ==>
      IsSubsequence(GetFilteredData(dataList, term), dataList.value)
      && (forall x :: x in GetFilteredData(dataList, term) <==> x in dataList.value && Matches(x, term))
      && forall x :: multiset(GetFilteredData(dataList, term))[x] == if Matches(x, term) then multiset(dataList.value)[x] else 0
  {
    if dataList.Some? && term != "" {
      FilterIsSubsequence(dataList.value, Matcher(term));
      FilterMembership(dataList.value, Matcher(term));
      FilterMultiset(dataList.value, Matcher(term));
    }
  }

  /** Searching the search result again changes nothing. */
  lemma GetFilteredDataIdempotent(dataList: Option<seq<Item>>, term: string)
    ensures GetFilteredData(Some(GetFilteredData(dataList, term)), term) == GetFilteredData(dataList, term)
  {
    if dataList.Some? && term != "" {
      FilterIdempotent(dataList.value, Matcher(term));
    }
  }

  /** The search does not depend on the case of the term. */
  lemma MatchesIgnoresTermCase(item: Item, term: string)
    ensures Matches(item, term) <==> Matches(item, Lower(term))
  {
    LowerIdempotent(term);
  }

  // ---------------------------------------------------------------------
  // Sorting

  /** The comparators the screen sorts with: the stable key of a section
      (client name ignoring case, then id) and the waiting time since the
      documents were confirmed, longest first. */
  datatype Ordering = ByClientThenId | ByDocConfDesc

  /** The key an ordering sorts an item by; a longer wait has a smaller rank. */
  function KeyOf(o: Ordering, x: Item): Key {
    match o
    case ByClientThenId => Key(Lower(OrEmpty(x.client)), OrZero(x.id))
    case ByDocConfDesc => Key("", -OrZero(x.daysSinceDocConf))
  }

  /** `x` sorts strictly before `y`. */
  predicate Less(o: Ordering, x: Item, y: Item) {
    KeyLess(KeyOf(o, x), KeyOf(o, y))
  }

  /** The comparator functions as written: `localeCompare` of the lower-cased
      clients when they differ, else the difference of the ids; and the
      difference of the waiting times, second minus first. */
  function Compare(o: Ordering, a: Item, b: Item): int {
    match o
    case ByClientThenId =>
      var clientA := Lower(OrEmpty(a.client));
      var clientB := Lower(OrEmpty(b.client));
      if clientA != clientB then LocaleCompare(clientA, clientB) else OrZero(a.id) - OrZero(b.id)
    case ByDocConfDesc => OrZero(b.daysSinceDocConf) - OrZero(a.daysSinceDocConf)
  }

  /** A comparator is negative exactly when the key order puts the first item
      first, and zero exactly when the keys are equal. */
  lemma CompareIsKeyOrder(o: Ordering, a: Item, b: Item)
    ensures Compare(o, a, b) < 0 <==> Less(o, a, b)
    ensures Compare(o, a, b) == 0 <==> KeyOf(o, a) == KeyOf(o, b)
  {
    StrLessIrreflexive(KeyOf(o, a).name);
  }

  /** The key of an ordering as a function on items. */
  function KeyFn(o: Ordering): Item -> Key {
    x => KeyOf(o, x)
  }

  /** No item sorts after a later one. */
  predicate SortedBy(o: Ordering, s: seq<Item>) {
    SortedOn(KeyFn(o), s)
  }

  /** `[...xs].sort(compare)`: a stable sort, as the language guarantees. */
  function SortBy(o: Ordering, xs: seq<Item>): (r: seq<Item>)
    ensures |r| == |xs|
  {
    SortOn(KeyFn(o), xs)
  }

  /** The sort yields a permutation of its input in comparator order (no
      later item compares below an earlier one), equal items in input order. */
  lemma SortSpec(o: Ordering, xs: seq<Item>)
    ensures multiset(SortBy(o, xs)) == multiset(xs)
    ensures forall i, j :: 0 <= i < j < |xs| ==> Compare(o, SortBy(o, xs)[i], SortBy(o, xs)[j]) <= 0
    ensures forall k :: Filter(SortBy(o, xs), HasKey(KeyFn(o), k)) == Filter(xs, HasKey(KeyFn(o), k))
  {
    SortPermutes(KeyFn(o), xs);
    SortSorted(KeyFn(o), xs);
    var r := SortBy(o, xs);
    forall i, j | 0 <= i < j < |xs| ensures Compare(o, r[i], r[j]) <= 0 {
      CompareIsKeyOrder(o, r[j], r[i]);
      CompareIsKeyOrder(o, r[i], r[j]);
      KeyLessTotal(KeyOf(o, r[i]), KeyOf(o, r[j]));
    }
    forall k ensures Filter(r, HasKey(KeyFn(o), k)) == Filter(xs, HasKey(KeyFn(o), k)) {
      SortStable(KeyFn(o), xs, k);
    }
  }

  // ---------------------------------------------------------------------
  // Sections as loaded

  /** The three sections of a response, any of which may be missing. */
  datatype Response = Response(newProjects: Option<seq<Item>>, inProgress: Option<seq<Item>>, finished: Option<seq<Item>>)

  /** The three sections as the screen keeps them. */
  datatype Sections = Sections(newProjects: seq<Item>, inProgress: seq<Item>, finished: seq<Item>)

  /** `stableSort`: a permutation of the section, ordered by lower-cased
      client and then id. */
  function StableSort(xs: seq<Item>): (r: seq<Item>)
    ensures multiset(r) == multiset(xs)
    ensures SortedBy(ByClientThenId, r)
  {
    SortPermutes(KeyFn(ByClientThenId), xs);
    SortSorted(KeyFn(ByClientThenId), xs);
    SortBy(ByClientThenId, xs)
  }

  /** Each section of the response stably sorted, a missing one as empty. */
  function Load(r: Response): Sections {
    Sections(StableSort(r.newProjects.GetOr([])), StableSort(r.inProgress.GetOr([])), StableSort(r.finished.GetOr([])))
  }

  /** Loading keeps every section's items, orders them by lower-cased client
      and then id, and a missing section is empty. */
  lemma LoadSpec(r: Response)
    ensures multiset(Load(r).newProjects) == multiset(r.newProjects.GetOr([]))
    ensures multiset(Load(r).inProgress) == multiset(r.inProgress.GetOr([]))
    ensures multiset(Load(r).finished) == multiset(r.finished.GetOr([]))
    ensures SortedBy(ByClientThenId, Load(r).newProjects)
    ensures SortedBy(ByClientThenId, Load(r).inProgress)
    ensures SortedBy(ByClientThenId, Load(r).finished)
    ensures r.newProjects.None? ==> Load(r).newProjects == []
  {
  }

  // ---------------------------------------------------------------------
  // Sub-lists

  function StatusText(p: Item): string {
    Lower(OrEmpty(p.projectStatus))
  }

  predicate NotStarted(status: string) {
    Contains(status, "não iniciado") || Contains(status, "nao iniciado")
  }

  predicate IsElaboracao(p: Item) {
    NotStarted(StatusText(p)) && Trim(Lower(OrEmpty(p.category))) == "projeto"
  }

  predicate IsAtrasado(p: Item) {
    Contains(StatusText(p), "atrasado") || NotStarted(StatusText(p))
  }

  predicate IsPendente(p: Item) {
    Contains(StatusText(p), "falta art")
  }

  predicate IsEnviarEnergisa(p: Item) {
    Contains(StatusText(p), "mandar") && Contains(Lower(OrEmpty(p.details)), "sm")
  }

  predicate CircuitPhrase(parecer: string) {
    Contains(parecer, "análise de circuito") || Contains(parecer, "analise de circuito")
  }

  predicate IsAnaliseCircuito(p: Item) {
    var parecer := Lower(OrEmpty(p.vistoriaOpinion));
    CircuitPhrase(parecer) || Contains(parecer, "obra 60d") || Contains(parecer, "obra 120d")
  }

  /** The in-progress items filtered by `p`, longest wait first. */
  function WaitingList(inProgress: seq<Item>, p: Item -> bool): seq<Item> {
    SortBy(ByDocConfDesc, Filter(inProgress, p))
  }

  /** Projects in elaboration: not started, of category `projeto`. */
  function EmElaboracao(s: Sections): seq<Item> {
    WaitingList(s.inProgress, IsElaboracao)
  }

  /** Late projects (computed by the screen, shown by no tab). */
  function Atrasados(s: Sections): seq<Item> {
    Filter(s.inProgress, IsAtrasado)
  }

  function Pendentes(s: Sections): seq<Item> {
    WaitingList(s.inProgress, IsPendente)
  }

  function EnviarEnergisa(s: Sections): seq<Item> {
    WaitingList(s.inProgress, IsEnviarEnergisa)
  }

  /** Circuit analysis draws on all three sections. */
  function AnaliseCircuito(s: Sections): seq<Item> {
    Filter(s.newProjects + s.inProgress + s.finished, IsAnaliseCircuito)
  }

  function Concluidos(s: Sections): seq<Item> {
    s.finished
  }

  /** A waiting list holds exactly the in-progress items that pass, each as
      often as there, longest wait first. */
  lemma WaitingListSpec(inProgress: seq<Item>, p: Item -> bool)
    ensures forall x :: x in WaitingList(inProgress, p) <==> x in inProgress && p(x)
    ensures multiset(WaitingList(inProgress, p)) == multiset(Filter(inProgress, p))
    ensures SortedBy(ByDocConfDesc, WaitingList(inProgress, p))
  {
    var f := Filter(inProgress, p);
    FilterMembership(inProgress, p);
    SortPermutes(KeyFn(ByDocConfDesc), f);
    SortSorted(KeyFn(ByDocConfDesc), f);
    forall x ensures x in WaitingList(inProgress, p) <==> x in f {
      assert x in multiset(WaitingList(inProgress, p)) <==> x in multiset(f);
    }
  }

  /** The elaboration list: not-started projects of category `projeto`, the
      longest waiting first; each of them is also late. */
  lemma EmElaboracaoSpec(s: Sections)
    ensures forall x :: x in EmElaboracao(s) <==> x in s.inProgress && IsElaboracao(x)
    ensures SortedBy(ByDocConfDesc, EmElaboracao(s))
    ensures forall i, j :: 0 <= i < j < |EmElaboracao(s)| ==>
      OrZero(EmElaboracao(s)[i].daysSinceDocConf) >= OrZero(EmElaboracao(s)[j].daysSinceDocConf)
    ensures forall x :: x in EmElaboracao(s) ==> x in Atrasados(s)
  {
    WaitingListSpec(s.inProgress, IsElaboracao);
    FilterMembership(s.inProgress, IsAtrasado);
  }

  lemma PendentesSpec(s: Sections)
    ensures forall x :: x in Pendentes(s) <==> x in s.inProgress && Contains(StatusText(x), "falta art")
    ensures SortedBy(ByDocConfDesc, Pendentes(s))
  {
    WaitingListSpec(s.inProgress, IsPendente);
  }

  lemma EnviarEnergisaSpec(s: Sections)
    ensures forall x :: x in EnviarEnergisa(s) <==>
      x in s.inProgress && Contains(StatusText(x), "mandar") && Contains(Lower(OrEmpty(x.details)), "sm")
    ensures SortedBy(ByDocConfDesc, EnviarEnergisa(s))
  {
    WaitingListSpec(s.inProgress, IsEnviarEnergisa);
  }

  /** Circuit analysis keeps, from new, in-progress and finished projects in
      that order, those whose opinion names one of the four phrases. */
  lemma AnaliseCircuitoSpec(s: Sections)
    ensures forall x :: x in AnaliseCircuito(s) <==>
      (x in s.newProjects || x in s.inProgress || x in s.finished) && IsAnaliseCircuito(x)
    ensures AnaliseCircuito(s) ==
      Filter(s.newProjects, IsAnaliseCircuito) + Filter(s.inProgress, IsAnaliseCircuito) + Filter(s.finished, IsAnaliseCircuito)
  {
    FilterMembership(s.newProjects + s.inProgress + s.finished, IsAnaliseCircuito);
    FilterAppend(s.newProjects + s.inProgress, s.finished, IsAnaliseCircuito);
    FilterAppend(s.newProjects, s.inProgress, IsAnaliseCircuito);
  }

  // ---------------------------------------------------------------------
  // Row colour

  /** `getRowClassInProgress`. */
  function RowClass(item: Item): (c: string)
    ensures c in ["row-red", "row-yellow", "row-blue", ""]
  {
    var status := StatusText(item);
    if Contains(status, "atrasado") || Contains(status, "não iniciado") || Contains(status, "nao iniciado") then "row-red"
    else if Contains(status, "falta art") || Contains(status, "pendente") then "row-yellow"
    else if Contains(status, "andamento") || Contains(status, "em andamento") then "row-blue"
    else ""
  }

  /** Red marks exactly the late items; yellow the rest that lack the ART or
      are pending; blue the rest that are under way (the `em andamento` test
      adds nothing, since that phrase contains `andamento`); nothing else is
      coloured. */
  lemma RowClassSpec(item: Item)
    ensures RowClass(item) == "row-red" <==> IsAtrasado(item)
    ensures RowClass(item) == "row-yellow" <==>
      !IsAtrasado(item) && (Contains(StatusText(item), "falta art") || Contains(StatusText(item), "pendente"))
    ensures RowClass(item) == "row-blue" <==>
      !IsAtrasado(item) && !Contains(StatusText(item), "falta art") && !Contains(StatusText(item), "pendente")
      && Contains(StatusText(item), "andamento")
  {
    var status := StatusText(item);
    if Contains(status, "em andamento") {
      assert "andamento" <= "em andamento"[3..];
      ContainsAt("em andamento", "andamento", 3);
      ContainsTrans(status, "em andamento", "andamento");
    }
  }

  /** Every project in elaboration shows red. */
  lemma ElaboracaoIsRed(item: Item)
    requires IsElaboracao(item)
    ensures RowClass(item) == "row-red"
  {
  }

  // ---------------------------------------------------------------------
  // Deadline of the circuit-analysis tab

  /** The offset in days the opinion calls for, if any: circuit analysis
      first (30), then a 60-day work, then a 120-day work. */
  function DaysToAdd(parecer: string): (n: Option<nat>)
    ensures n.Some? ==> n.value in {30, 60, 120}
  {
    if CircuitPhrase(parecer) then Some(30)
    else if Contains(parecer, "obra 60d") then Some(60)
    else if Contains(parecer, "obra 120d") then Some(120)
    else None
  }

  /** What the deadline cell shows: a text, or the start date moved on by a
      number of days (formatted by the host's date rules). */
  datatype DeadlineCell = Shown(text: string) | StartPlus(days: nat)

  /** `item.deadline || '-'`. */
  function DeadlineOrDash(item: Item): string {
    if OrEmpty(item.deadline) != "" then item.deadline.value else "-"
  }

  /** Whether `parseDate` yields a date: `isoDate` stands for the host
      accepting the text as a date; otherwise three `/`-separated parts make a
      date (possibly an invalid one, which is still an object). */
  predicate StartDateParses(text: string, isoDate: string -> bool) {
    text != "" && (isoDate(text) || |Split(text, '/')| == 3)
  }

  /** The deadline render function. */
  function Deadline(item: Item, isoDate: string -> bool): (c: DeadlineCell)
    ensures c.StartPlus? ==> c.days in {30, 60, 120}
    ensures c.Shown? ==> c.text == "-" || Some(c.text) == item.deadline
  {
    var parecer := Lower(OrEmpty(item.vistoriaOpinion));
    if OrEmpty(item.installDate) == "" then Shown("-")
    else if !StartDateParses(item.installDate.value, isoDate) then Shown(DeadlineOrDash(item))
    else match DaysToAdd(parecer)
      case Some(n) => StartPlus(n)
      case None => Shown(DeadlineOrDash(item))
  }

  /** Without a start date the cell is `-`; with a usable start date the
      offset decides, and without an offset (or a usable start date) the
      stored deadline or `-` is shown. */
  lemma DeadlineSpec(item: Item, isoDate: string -> bool)
    ensures OrEmpty(item.installDate) == "" ==> Deadline(item, isoDate) == Shown("-")
    ensures Deadline(item, isoDate).StartPlus? <==>
      OrEmpty(item.installDate) != "" && StartDateParses(item.installDate.value, isoDate)
      && DaysToAdd(Lower(OrEmpty(item.vistoriaOpinion))).Some?
    ensures Deadline(item, isoDate).StartPlus? ==>
      Deadline(item, isoDate).days in {30, 60, 120}
      && Deadline(item, isoDate).days == DaysToAdd(Lower(OrEmpty(item.vistoriaOpinion))).value
    ensures Deadline(item, isoDate).Shown? && OrEmpty(item.installDate) != "" ==>
      Deadline(item, isoDate).text == DeadlineOrDash(item)
  {
  }

  /** The offset exists exactly for the opinions the circuit-analysis list
      keeps, and the circuit-analysis phrase wins over the other two. */
  lemma DaysToAddSpec(item: Item)
    ensures DaysToAdd(Lower(OrEmpty(item.vistoriaOpinion))).Some? <==> IsAnaliseCircuito(item)
    ensures CircuitPhrase(Lower(OrEmpty(item.vistoriaOpinion))) ==> DaysToAdd(Lower(OrEmpty(item.vistoriaOpinion))) == Some(30)
    ensures !CircuitPhrase(Lower(OrEmpty(item.vistoriaOpinion))) && Contains(Lower(OrEmpty(item.vistoriaOpinion)), "obra 60d") ==>
      DaysToAdd(Lower(OrEmpty(item.vistoriaOpinion))) == Some(60)
    ensures (!CircuitPhrase(Lower(OrEmpty(item.vistoriaOpinion))) && !Contains(Lower(OrEmpty(item.vistoriaOpinion)), "obra 60d")
      && Contains(Lower(OrEmpty(item.vistoriaOpinion)), "obra 120d")) ==> DaysToAdd(Lower(OrEmpty(item.vistoriaOpinion))) == Some(120)
  {
  }

  /** A start date written `dd/mm/yyyy` (three parts without `/`) always
      parses, whatever the host makes of it. */
  lemma DayMonthYearParses(d: string, m: string, y: string, isoDate: string -> bool)
    requires '/' !in d && '/' !in m && '/' !in y
    ensures StartDateParses(d + "/" + m + "/" + y, isoDate)
  {
    var text := d + "/" + m + "/" + y;
    assert Join([d, m, y], "/") == text by {
      assert [d, m, y][1..] == [m, y];
      assert [m, y][1..] == [y];
      assert Join([m, y], "/") == m + "/" + y;
      assert Join([d, m, y], "/") == d + "/" + (m + "/" + y);
    }
    SplitJoin([d, m, y], '/');
    assert text != "" by {
      assert |text| >= 2;
    }
  }

  // ---------------------------------------------------------------------
  // Tabs

  /** The column sets of the tables. */
  datatype Columns = InProgressColumns | AnaliseColumns | ConcluidosColumns

  /** What a tab shows: the table's title, its columns, its rows and whether
      rows are coloured. */
  datatype TabView = TabView(title: string, columns: Columns, data: seq<Item>, coloured: bool)

  /** `getTabContent()` for the active tab; `None` renders nothing. */
  function TabContent(s: Sections, term: string, tab: string): (v: Option<TabView>)
    ensures v.Some? ==> (v.value.coloured <==> v.value.columns == InProgressColumns)
    ensures v.Some? ==> |v.value.data| <= |s.newProjects| + |s.inProgress| + |s.finished|
  {
    if tab == "elaboracao" || tab == "andamento" then
      Some(TabView("PROJETOS EM ELABORAÇÃO", InProgressColumns, GetFilteredData(Some(EmElaboracao(s)), term), true))
    else if tab == "pendentes" then
      Some(TabView("PROJETOS PENDENTES - AGUARDANDO ART", InProgressColumns, GetFilteredData(Some(Pendentes(s)), term), true))
    else if tab == "energisa" then
      Some(TabView("PROJETOS ENVIAR ENERGISA", InProgressColumns, GetFilteredData(Some(EnviarEnergisa(s)), term), true))
    else if tab == "analise" then
      Some(TabView("ANÁLISE DE CIRCUITO", AnaliseColumns, GetFilteredData(Some(AnaliseCircuito(s)), term), false))
    else if tab == "concluidos" then
      Some(TabView("PROJETOS CONCLUÍDOS", ConcluidosColumns, GetFilteredData(Some(Concluidos(s)), term), false))
    else None
  }

  /** `getTabCount(tabId)`. */
  function TabCount(s: Sections, term: string, tab: string): (c: nat)
    ensures c <= |s.newProjects| + |s.inProgress| + |s.finished|
  {
    if tab == "elaboracao" || tab == "andamento" then |GetFilteredData(Some(EmElaboracao(s)), term)|
    else if tab == "pendentes" then |GetFilteredData(Some(Pendentes(s)), term)|
    else if tab == "energisa" then |GetFilteredData(Some(EnviarEnergisa(s)), term)|
    else if tab == "analise" then |GetFilteredData(Some(AnaliseCircuito(s)), term)|
    else if tab == "concluidos" then |GetFilteredData(Some(Concluidos(s)), term)|
    else 0
  }

  /** A tab's badge counts exactly the rows its table shows; `andamento` shows
      the elaboration table; any other unknown tab shows nothing and counts 0. */
  lemma TabCountMatchesContent(s: Sections, term: string, tab: string)
    ensures TabContent(s, term, tab).Some? ==> TabCount(s, term, tab) == |TabContent(s, term, tab).value.data|
    ensures TabContent(s, term, tab).None? <==>
      tab !in {"elaboracao", "andamento", "pendentes", "energisa", "analise", "concluidos"}
    ensures TabContent(s, term, tab).None? ==> TabCount(s, term, tab) == 0
    ensures TabContent(s, term, "andamento") == TabContent(s, term, "elaboracao")
  {
  }
}
