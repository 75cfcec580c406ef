/** Bringing the queues of the configuration up to date with what the information system publishes. */
module QueueSync {
  import opened Options
  import opened Lists
  import opened Tags

  // One queue.

  const UNKNOWN := "Unknown"
  const MULTI := "MultiProcessor"

  /** A queue of the configuration; what is missing reads as UNKNOWN, nothing or zero. */
  datatype Queue = Queue(maxCPUTime: string, si00: string, maxTotalJobs: string, maxWaitingJobs: string, tag: string,
                         requiredTag: string, localCEType: string, processors: int, vo: string)

  const NO_QUEUE := Queue(UNKNOWN, UNKNOWN, UNKNOWN, UNKNOWN, [], [], [], 0, [])

  /** What is published of a queue, as far as it does not depend on the configuration. */
  datatype Published = Published(production: bool, maxCPUTime: string, si00: string, totalJobs: string,
                                 waitingJobs: string, processors: int)

  datatype Updates = Updates(maxCPUTime: Option<string>, si00: Option<string>, maxTotalJobs: Option<string>,
                             maxWaitingJobs: Option<string>, tag: Option<string>, requiredTag: Option<string>,
                             localCEType: Option<string>, processors: Option<int>, vo: Option<string>)

  const NO_UPDATES := Updates(None, None, None, None, None, None, None, None, None)

  /** A new value goes into the set of changes when it says something else. */
  function Changed(value: string, newValue: string): Option<string> {
    if newValue != [] && newValue != value then Some(newValue) else None
  }

  function Inner(localCEType: string): string {
    var parts := Split(localCEType, '/');
    if |parts| > 1 then parts[1] else []
  }

  function Stripped(parts: seq<string>): seq<string> {
    if parts == [] then [] else (if parts[0] == [] then [] else [Strip(parts[0])]) + Stripped(parts[1..])
  }

  function VOs(vo: string): seq<string> {
    Unique(Stripped(Split(vo, ',')))
  }

  function TagUpdate(q: Queue, processors: int): Option<string> {
    if processors == q.processors then None
    else if processors > 1 then Changed(q.tag, AddTag(q.tag, MULTI))
    else Some(DropTag(q.tag, MULTI))
  }

  function RequiredTagUpdate(q: Queue, processors: int, onecore: bool): Option<string> {
    if !onecore then None
    else if processors > 1 then Changed(q.requiredTag, AddTag(q.requiredTag, MULTI))
    else if processors != q.processors then Some(DropTag(q.requiredTag, MULTI))
    else None
  }

  function LocalTypeUpdate(q: Queue, processors: int): Option<string> {
    if processors != q.processors && processors > 1 then
      Changed(q.localCEType, if Inner(q.localCEType) != [] then "Pool/" + Inner(q.localCEType) else "Pool")
    else None
  }

  function VOUpdate(text: string, vo: string): Option<string> {
    if vo in VOs(text) then None else Changed([], Glue(VOs(text) + [vo]))
  }

  /** Zero processors are never written. */
  function ProcessorsUpdate(q: Queue, processors: int): Option<int> {
    if processors != q.processors && processors != 0 then Some(processors) else None
  }

  /** A queue that is not configured is added when it is in production. */
  function UpdatesOf(known: Option<Queue>, published: Published, vo: string, onecore: bool): Updates {
    if known.None? && !published.production then NO_UPDATES
    else
      var q, processors := Configured(known), published.processors;
      Updates(Changed(q.maxCPUTime, published.maxCPUTime), Changed(q.si00, published.si00),
              if q.maxTotalJobs == UNKNOWN then Changed([], published.totalJobs) else None,
              if q.maxTotalJobs == UNKNOWN then Changed([], published.waitingJobs) else None,
              TagUpdate(q, processors), RequiredTagUpdate(q, processors, onecore), LocalTypeUpdate(q, processors),
              ProcessorsUpdate(q, processors), VOUpdate(q.vo, vo))
  }

  function Configured(known: Option<Queue>): Queue {
    if known.Some? then known.value else NO_QUEUE
  }

  function Or<T>(update: Option<T>, value: T): T {
    if update.Some? then update.value else value
  }

  function Updated(q: Queue, u: Updates): Queue {
    Queue(Or(u.maxCPUTime, q.maxCPUTime), Or(u.si00, q.si00), Or(u.maxTotalJobs, q.maxTotalJobs),
          Or(u.maxWaitingJobs, q.maxWaitingJobs), Or(u.tag, q.tag), Or(u.requiredTag, q.requiredTag),
          Or(u.localCEType, q.localCEType), Or(u.processors, q.processors), Or(u.vo, q.vo))
  }

  lemma {:induction false} StrippedHas(parts: seq<string>, vo: string)
    requires Clean(vo, ',') && vo in parts
    ensures vo in Stripped(parts)
  {
    CleanIsStripped(vo, ',');
    if parts[0] != vo { StrippedHas(parts[1..], vo); }
  }

  lemma {:induction false} StrippedNoComma(parts: seq<string>)
    requires NoCommas(parts)
    ensures NoCommas(Stripped(parts))
  {
    if parts != [] {
      assert parts[0] in parts;
      StripLeftClean(parts[0], ',');
      StripRightClean(StripLeft(parts[0]), ',');
      StrippedNoComma(parts[1..]);
    }
  }

  lemma {:induction false} GlueHoldsLast(list: seq<string>)
    requires list != []
    ensures |Glue(list)| >= |list[|list| - 1]|
  {
    if |list| > 1 { GlueHoldsLast(list[1..]); }
  }

  /** A VO that was added is found again, next to those that were there. */
  lemma VOIsKept(text: string, vo: string)
    requires Clean(vo, ',') && vo !in VOs(text)
    ensures var after := Glue(VOs(text) + [vo]);
      after != [] && vo in VOs(after) && Split(after, ',') == VOs(text) + [vo]
  {
    var list := VOs(text) + [vo];
    PartsHaveNoComma(text);
    StrippedNoComma(Split(text, ','));
    UniqueHasAll(Stripped(Split(text, ',')));
    SplitGlue(list);
    GlueHoldsLast(list);
    assert list[|list| - 1] == vo && vo in list;
    StrippedHas(list, vo);
    UniqueHasAll(Stripped(list));
  }

  lemma VOTwice(text: string, vo: string)
    requires Clean(vo, ',')
    ensures vo in VOs(Or(VOUpdate(text, vo), text))
  {
    if vo !in VOs(text) { VOIsKept(text, vo); }
  }

  // What a queue holds once the changes to it are applied, option by option.

  /** Only a queue that is not configured and not in production is left alone. */
  lemma AddedInProduction(known: Option<Queue>, published: Published, vo: string, onecore: bool)
    requires Clean(vo, ',') && known.None?
    ensures UpdatesOf(known, published, vo, onecore) == NO_UPDATES <==> !published.production
  {
    assert Split([], ',') == [[]] && Stripped([[]]) == Stripped([[]][1..]) == [];
    assert VOs([]) == [] && Glue(VOs([]) + [vo]) == vo;
  }

  /** A value that is published and differs is taken over; nothing published, nothing changed. */
  ghost predicate TakenOver(value: string, published: string, update: Option<string>, after: string) {
    && after == (if published != [] then published else value)
    && (update.Some? <==> after != value)
  }

  /** Published values are taken over, each for its own option; the limits on jobs only where none is configured, and
      the number of processors unless it is zero. */
  lemma ValuesAsPublished(known: Option<Queue>, published: Published, vo: string, onecore: bool)
    requires known.Some? || published.production
    ensures var q, u := Configured(known), UpdatesOf(known, published, vo, onecore);
      var after := Updated(q, u);
      && TakenOver(q.maxCPUTime, published.maxCPUTime, u.maxCPUTime, after.maxCPUTime)
      && TakenOver(q.si00, published.si00, u.si00, after.si00)
      && after.maxTotalJobs
         == (if q.maxTotalJobs == "Unknown" && published.totalJobs != [] then published.totalJobs else q.maxTotalJobs)
      && after.maxWaitingJobs
         == (if q.maxTotalJobs == "Unknown" && published.waitingJobs != [] then published.waitingJobs
             else q.maxWaitingJobs)
      && after.processors == (if published.processors != 0 then published.processors else q.processors)
  {}

  /** Where the number of processors changes, the queue is tagged exactly if it now has several; where several are
      published and queues of one core are wanted too, the tag is required as well. No other tag comes or goes. */
  lemma TagsFollowProcessors(known: Option<Queue>, published: Published, vo: string, onecore: bool, tag: string)
    requires (known.Some? || published.production) && tag != []
    ensures var q, n := Configured(known), published.processors;
      var after := Updated(q, UpdatesOf(known, published, vo, onecore));
      && (HasTag(after.tag, tag) <==>
            if tag == MULTI && n != q.processors then n > 1 else HasTag(q.tag, tag))
      && (HasTag(after.requiredTag, tag) <==>
            if tag == MULTI && onecore && (n > 1 || n != q.processors) then n > 1 else HasTag(q.requiredTag, tag))
      && (n == q.processors ==> after.tag == q.tag)
      && (!onecore || 1 >= n == q.processors ==> after.requiredTag == q.requiredTag)
  {
    MultiComesAndGoes(Configured(known).tag, tag);
    MultiComesAndGoes(Configured(known).requiredTag, tag);
  }

  lemma MultiComesAndGoes(tags: string, tag: string)
    requires tag != []
    ensures HasTag(Or(Changed(tags, AddTag(tags, MULTI)), tags), tag) <==> HasTag(tags, tag) || tag == MULTI
    ensures HasTag(DropTag(tags, MULTI), tag) <==> HasTag(tags, tag) && tag != MULTI
  {
    AddTagTwice(tags, MULTI);
    AddTagAddsIt(tags, MULTI, tag);
    DropTagDropsIt(tags, MULTI, tag);
  }

  /** A queue whose number of processors changes to several becomes a pool, around what was inside before. */
  lemma LocalTypeBecomesPool(known: Option<Queue>, published: Published, vo: string, onecore: bool)
    requires known.Some? || published.production
    ensures var q, n := Configured(known), published.processors;
      var after, parts := Updated(q, UpdatesOf(known, published, vo, onecore)), Split(q.localCEType, '/');
      if n != q.processors && n > 1 then
        Split(after.localCEType, '/') == ["Pool"] + if |parts| > 1 && parts[1] != [] then [parts[1]] else []
      else after.localCEType == q.localCEType
  {
    BecomesPool(Configured(known), published.processors);
  }

  lemma BecomesPool(q: Queue, processors: int)
    ensures var parts := Split(q.localCEType, '/');
      var after := Or(LocalTypeUpdate(q, processors), q.localCEType);
      if processors != q.processors && processors > 1 then
        Split(after, '/') == ["Pool"] + if |parts| > 1 && parts[1] != [] then [parts[1]] else []
      else after == q.localCEType
  {
    var parts := Split(q.localCEType, '/');
    if |parts| > 1 && parts[1] != [] {
      SplitParts(q.localCEType, '/', 1);
      PoolAround(parts[1]);
    } else {
      PoolAround([]);
    }
  }

  lemma PoolAround(inner: string)
    requires '/' !in inner
    ensures Split("Pool", '/') == ["Pool"] && Split("Pool/" + inner, '/') == ["Pool", inner]
    ensures "Pool/" + inner != [] && "Pool" != []
  {
    SplitWhole("Pool", '/');
    SplitWhole(inner, '/');
    SplitPrefix("Pool", inner, '/');
    assert "Pool/" + inner == "Pool" + (['/'] + inner);
  }

  lemma {:induction false} StrippedIs(parts: seq<string>, item: string)
    ensures item in Stripped(parts) <==> exists part :: part in parts && part != [] && item == Strip(part)
  {
    if parts != [] {
      StrippedIs(parts[1..], item);
      assert parts == [parts[0]] + parts[1..];
    }
  }

  /** The organisation is among those listed afterwards, once, next to those that were listed before. */
  lemma OrganisationIsListed(known: Option<Queue>, published: Published, vo: string, onecore: bool, other: string)
    requires (known.Some? || published.production) && Clean(vo, ',')
    ensures var q := Configured(known);
      var after, parts := Updated(q, UpdatesOf(known, published, vo, onecore)), Split(q.vo, ',');
      if exists part :: part in parts && part != [] && vo == Strip(part) then after.vo == q.vo
      else
        && NoDuplicates(Split(after.vo, ','))
        && (other in Split(after.vo, ',') <==>
              other == vo || exists part :: part in parts && part != [] && other == Strip(part))
  {
    var text := Configured(known).vo;
    StrippedIs(Split(text, ','), other);
    StrippedIs(Split(text, ','), vo);
    UniqueHasAll(Stripped(Split(text, ',')));
    if vo !in VOs(text) { VOIsKept(text, vo); }
  }

  lemma ChangedOnce(value: string, newValue: string)
    ensures Changed(Or(Changed(value, newValue), value), newValue) == None
  {}

  lemma RequiredTagTwice(q: Queue, after: Queue, processors: int, onecore: bool)
    requires after.requiredTag == Or(RequiredTagUpdate(q, processors, onecore), q.requiredTag)
    requires processors > 1 ==> after.processors == processors
    ensures processors > 1 ==> RequiredTagUpdate(after, processors, onecore) == None
  {
    AddTagTwice(q.requiredTag, MULTI);
  }

  /** Once the changes to a queue are applied there is nothing left to change, unless no processor is published for a
      queue that is configured with some: that queue is changed every time. */
  lemma SecondTimeNothingChanges(known: Option<Queue>, published: Published, vo: string, onecore: bool)
    requires Clean(vo, ',') && (known.Some? || published.production)
    requires published.totalJobs != [] && published.totalJobs != UNKNOWN
    ensures var after := Updated(Configured(known), UpdatesOf(known, published, vo, onecore));
      UpdatesOf(Some(after), published, vo, onecore) == NO_UPDATES <==>
        published.processors != 0 || Configured(known).processors == 0
  {
    var q, processors := Configured(known), published.processors;
    var after := Updated(q, UpdatesOf(known, published, vo, onecore));
    var again := UpdatesOf(Some(after), published, vo, onecore);
    ChangedOnce(q.maxCPUTime, published.maxCPUTime);
    ChangedOnce(q.si00, published.si00);
    assert again.maxCPUTime == None && again.si00 == None;
    assert after.maxTotalJobs != UNKNOWN;
    assert again.maxTotalJobs == None && again.maxWaitingJobs == None;
    VOTwice(q.vo, vo);
    assert again.vo == None;
    RequiredTagTwice(q, after, processors, onecore);
    if processors != 0 || q.processors == 0 {
      assert after.processors == processors;
    } else {
      assert after.processors == q.processors && again.tag.Some?;
    }
  }

  // The virtual organisations that ask for a queue.

  /** A change of one option; those of the VO option come from several virtual organisations. */
  datatype Change = Change(section: string, option: string, value: string, newValue: string)

  predicate ChangesVO(c: Change, section: string) {
    c.option == "VO" && c.section == section
  }

  function Asked(changes: seq<Change>, section: string): set<string> {
    if changes == [] then {}
    else
      var most, last := Asked(changes[..|changes| - 1], section), changes[|changes| - 1];
      if ChangesVO(last, section) then most + Items(Split(last.newValue, ',')) else most
  }

  /** Gathers the VO lists of each section; the other changes stay as they are. */
  method Consolidate(changes: seq<Change>) returns (queueVOs: map<string, set<string>>, others: set<Change>)
    ensures forall s :: s in queueVOs <==> exists c :: c in changes && ChangesVO(c, s)
    ensures forall s :: s in queueVOs ==> queueVOs[s] == Asked(changes, s)
    ensures forall c :: c in others <==> c in changes && c.option != "VO"
  {
    queueVOs, others := map[], {};
    ghost var done: seq<Change> := [];
    for i := 0 to |changes|
      invariant done == changes[..i] && Gathered(done, queueVOs)
      invariant forall c :: c in others <==> c in done && c.option != "VO"
    {
      var c := changes[i];
      GathersOneMore(done, queueVOs, c);
      if c.option == "VO" {
        var before := if c.section in queueVOs then queueVOs[c.section] else {};
        queueVOs := queueVOs[c.section := before + Items(Split(c.newValue, ','))];
      } else {
        others := others + {c};
      }
      done := done + [c];
    }
    assert done == changes;
    forall s
      ensures s in queueVOs <==> exists c :: c in changes && ChangesVO(c, s)
      ensures Asked(changes, s) == if s in queueVOs then queueVOs[s] else {}
    {
      assert GatheredFor(changes, queueVOs, s);
    }
  }

  /** A section with a change of its VO option has the items of all of them. */
  ghost predicate GatheredFor(changes: seq<Change>, queueVOs: map<string, set<string>>, section: string) {
    && (section in queueVOs <==> exists c :: c in changes && ChangesVO(c, section))
    && Asked(changes, section) == if section in queueVOs then queueVOs[section] else {}
  }

  ghost predicate Gathered(changes: seq<Change>, queueVOs: map<string, set<string>>) {
    forall s :: GatheredFor(changes, queueVOs, s)
  }

  /** The lists once one more change is in. */
  function WithChange(queueVOs: map<string, set<string>>, c: Change): map<string, set<string>> {
    if c.option != "VO" then queueVOs
    else
      queueVOs[c.section := (if c.section in queueVOs then queueVOs[c.section] else {}) + Items(Split(c.newValue, ','))]
  }

  lemma AskedOneMore(changes: seq<Change>, c: Change, section: string)
    ensures Asked(changes + [c], section)
      == Asked(changes, section) + if ChangesVO(c, section) then Items(Split(c.newValue, ',')) else {}
    ensures (exists d :: d in changes + [c] && ChangesVO(d, section))
      <==> (exists d :: d in changes && ChangesVO(d, section)) || ChangesVO(c, section)
  {
    assert (changes + [c])[..|changes|] == changes && (changes + [c])[|changes|] == c;
    if ChangesVO(c, section) { assert c in changes + [c]; }
  }

  lemma GathersOneMore(changes: seq<Change>, queueVOs: map<string, set<string>>, c: Change)
    requires Gathered(changes, queueVOs)
    ensures Gathered(changes + [c], WithChange(queueVOs, c))
  {
    forall s ensures GatheredFor(changes + [c], WithChange(queueVOs, c), s) {
      assert GatheredFor(changes, queueVOs, s);
      AskedOneMore(changes, c, s);
    }
  }

  function Items(list: seq<string>): set<string> {
    set v | v in list
  }

  lemma ItemsAppended(list: seq<string>, v: string)
    ensures Items(list + [v]) == Items(list) + {v}
  {}

  /** Those who ask for the queue, `asking` naming who made each change. */
  function Askers(changes: seq<Change>, section: string, asking: seq<string>): set<string>
    requires |asking| == |changes|
  {
    if changes == [] then {}
    else
      var n := |changes| - 1;
      Askers(changes[..n], section, asking[..n]) + if ChangesVO(changes[n], section) then {asking[n]} else {}
  }

  /** Among all the changes of a run, those of one queue's VO option gather what the queue had and every virtual
      organisation that asked for it, and no other. */
  lemma {:induction false} EveryVOIsAdded(changes: seq<Change>, section: string, text: string, asking: seq<string>)
    requires |asking| == |changes|
    requires forall i :: 0 <= i < |changes| && ChangesVO(changes[i], section) ==>
      Asks(changes[i], section, text, asking[i])
    ensures var askers := Askers(changes, section, asking);
      Asked(changes, section) == if askers == {} then {} else Items(VOs(text)) + askers
    decreases |changes|
  {
    if changes != [] {
      var n := |changes| - 1;
      EveryVOIsAdded(changes[..n], section, text, asking[..n]);
      if ChangesVO(changes[n], section) {
        VOIsKept(text, asking[n]);
        ItemsAppended(VOs(text), asking[n]);
        assert asking[n] in Askers(changes, section, asking);
      }
    }
  }

  /** The change that getting the updates of one virtual organisation makes to the queue's VO option. */
  predicate Asks(change: Change, section: string, text: string, vo: string) {
    Clean(vo, ',') && vo !in VOs(text) && change == Change(section, "VO", [], Glue(VOs(text) + [vo]))
  }
}
