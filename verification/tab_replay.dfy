/** Replaying stored tabs: per-tab dispatch to the host's open primitive and
    the best-effort loop that tries every tab in order. */
module TabReplay {
  import opened Types

  /** The options object handed to the host's `openTab`, one shape per kind. */
  datatype OpenRequest =
    | OpenDoc(docId: Value)
    | OpenSearch(k: Value)
    | OpenGraph(graph: Value)
    | OpenOutline(outline: Value)
    | OpenBacklink(backlink: Value)
    | OpenFile(file: Value)
    | OpenAsset(asset: Value)
    | OpenCustom(custom: Value)

  /** The kind of tab a request opens. */
  function RequestKind(q: OpenRequest): TabKind {
    match q
    case OpenDoc(_) => Doc
    case OpenSearch(_) => Search
    case OpenGraph(_) => Graph
    case OpenOutline(_) => Outline
    case OpenBacklink(_) => Backlink
    case OpenFile(_) => File
    case OpenAsset(_) => Asset
    case OpenCustom(_) => Custom
  }

  /** The value a request carries to the host. */
  function Payload(q: OpenRequest): Value {
    match q
    case OpenDoc(v) => v
    case OpenSearch(v) => v
    case OpenGraph(v) => v
    case OpenOutline(v) => v
    case OpenBacklink(v) => v
    case OpenFile(v) => v
    case OpenAsset(v) => v
    case OpenCustom(v) => v
  }

  /** The request `openTab` builds for a tab, or None when building it throws
      (a document or search tab whose data is undefined or null). */
  function OpenTab(tab: TabState): (r: Option<OpenRequest>)
    ensures r.None? <==> (tab.kind.Doc? || tab.kind.Search?) && (tab.data.Undefined? || tab.data.Null?)
    ensures r.Some? ==> RequestKind(r.value) == tab.kind
    ensures r.Some? && tab.kind.Doc? ==> Some(Payload(r.value)) == Member(tab.data, "id")
    ensures r.Some? && tab.kind.Search? ==> Some(Payload(r.value)) == Member(tab.data, "keyword")
    ensures !tab.kind.Doc? && !tab.kind.Search? ==> r.Some? && Payload(r.value) == tab.data
  {
    match tab.kind
    case Doc =>
      (match Member(tab.data, "id")
       case None => None
       case Some(id) => Some(OpenDoc(id)))
    case Search =>
      (match Member(tab.data, "keyword")
       case None => None
       case Some(k) => Some(OpenSearch(k)))
    case Graph => Some(OpenGraph(tab.data))
    case Outline => Some(OpenOutline(tab.data))
    case Backlink => Some(OpenBacklink(tab.data))
    case File => Some(OpenFile(tab.data))
    case Asset => Some(OpenAsset(tab.data))
    case Custom => Some(OpenCustom(tab.data))
  }

  /** The host's open primitive: whether the call for the tab at a given
      position of the replay, with a given request, succeeds. */
  type Opener = (nat, OpenRequest) -> bool

  /** What happened to one stored tab during replay. */
  datatype Attempt = Attempt(tab: TabState, request: Option<OpenRequest>, succeeded: bool)

  /** Replaying the tab at position `i`: build its request, hand it to the host,
      and absorb any failure. */
  function AttemptAt(i: nat, tab: TabState, opener: Opener): Attempt {
    var q := OpenTab(tab);
    Attempt(tab, q, q.Some? && opener(i, q.value))
  }

  /** Reference definition of restoreTabs: one attempt per stored tab. */
  function ReplayLog(tabs: seq<TabState>, opener: Opener): (log: seq<Attempt>)
    ensures |log| == |tabs|
    ensures forall i :: 0 <= i < |tabs| ==> log[i].tab == tabs[i]
    ensures forall i :: 0 <= i < |tabs| ==> log[i].request == OpenTab(tabs[i])
    ensures forall i :: 0 <= i < |tabs| ==>
              (log[i].succeeded <==> log[i].request.Some? && opener(i, log[i].request.value))
    decreases |tabs|
  {
    if |tabs| == 0 then []
    else
      var n := |tabs| - 1;
      ReplayLog(tabs[..n], opener) + [AttemptAt(n, tabs[n], opener)]
  }

  /** restoreTabs: opens each stored tab in sequence order; a failing tab is
      skipped and the loop goes on. */
  method RestoreTabs(tabs: seq<TabState>, opener: Opener) returns (log: seq<Attempt>)
    ensures log == ReplayLog(tabs, opener)
  {
    log := [];
    var i := 0;
    while i < |tabs|
      invariant 0 <= i <= |tabs|
      invariant log == ReplayLog(tabs[..i], opener)
    {
      var q := OpenTab(tabs[i]);
      var ok := false;
      if q.Some? {
        ok := opener(i, q.value);
      }
      assert tabs[..i + 1][..i] == tabs[..i];
      log := log + [Attempt(tabs[i], q, ok)];
      i := i + 1;
    }
    assert tabs[..i] == tabs;
  }

  /** Replay of a prefix is a prefix of the replay: what happens to later
      tabs never changes what happened to earlier ones. */
  lemma {:induction false} ReplayPrefix(tabs: seq<TabState>, k: nat, opener: Opener)
    requires k <= |tabs|
    ensures ReplayLog(tabs[..k], opener) == ReplayLog(tabs, opener)[..k]
    decreases |tabs|
  {
    if k < |tabs| {
      var n := |tabs| - 1;
      assert tabs[..n][..k] == tabs[..k];
      ReplayPrefix(tabs[..n], k, opener);
    } else {
      assert tabs[..k] == tabs;
    }
  }

  /** A failure at one position changes only that position's attempt: every
      other tab is still attempted and ends exactly as before. */
  lemma FailureIsIsolated(tabs: seq<TabState>, k: nat, o1: Opener, o2: Opener)
    requires forall i: nat, q :: i != k ==> o1(i, q) == o2(i, q)
    ensures forall i :: 0 <= i < |tabs| && i != k ==> ReplayLog(tabs, o1)[i] == ReplayLog(tabs, o2)[i]
  {
  }

  /** Replaying a concatenation replays the first part, then the second part at
      shifted positions. */
  lemma {:induction false} ReplayAppend(a: seq<TabState>, b: seq<TabState>, opener: Opener)
    ensures ReplayLog(a + b, opener)[..|a|] == ReplayLog(a, opener)
    ensures forall j :: 0 <= j < |b| ==>
              ReplayLog(a + b, opener)[|a| + j] == AttemptAt(|a| + j, b[j], opener)
  {
    ReplayPrefix(a + b, |a|, opener);
    assert (a + b)[..|a|] == a;
  }

  /** Four graph tabs where the host fails on the third: the first, second and
      fourth still open. */
  lemma ThirdOfFourFails(t0: TabState, t1: TabState, t2: TabState, t3: TabState)
    requires t0.kind.Graph? && t1.kind.Graph? && t2.kind.Graph? && t3.kind.Graph?
    ensures var log := ReplayLog([t0, t1, t2, t3], (i: nat, q: OpenRequest) => i != 2);
            log[0].succeeded && log[1].succeeded && !log[2].succeeded && log[3].succeeded
  {
  }
}
