/** The registered marker vocabularies (the layers listed in src/angular_meta/phi.rs), checked one by one. */
module PhiRegistry {
  import opened Prelude
  import opened Phi

  /** A marker by its token and expansion; its prefix is the marker sign, the token and a colon. */
  datatype Marker = Marker(token: string, expansion: string)

  function PrefixOf(token: string): Text {
    Cons(PHI, Append(Chars(token), Cons(':', Nil)))
  }

  function RulesOf(markers: List<Marker>): List<Rule> {
    if markers.Nil? then Nil
    else Cons(Rule(PrefixOf(markers.head.token), Chars(markers.head.expansion)), RulesOf(markers.tail))
  }

  predicate Ordinary(c: char, blanks: bool) {
    c != PHI && c != ':' && (blanks || c != ' ')
  }

  ghost predicate FreeOf(t: string, blanks: bool) {
    forall i :: 0 <= i < |t| ==> Ordinary(t[i], blanks)
  }

  ghost predicate Usable(markers: List<Marker>) {
    markers.Cons? ==>
      FreeOf(markers.head.token, false) && FreeOf(markers.head.expansion, true) && Usable(markers.tail)
  }

  ghost predicate Listed(markers: List<Marker>, token: string) {
    markers.Cons? && (markers.head.token == token || Listed(markers.tail, token))
  }

  ghost predicate DistinctTokens(markers: List<Marker>) {
    markers.Cons? ==> !Listed(markers.tail, markers.head.token) && DistinctTokens(markers.tail)
  }

  lemma {:induction false} TokenIsBody(t: string)
    requires FreeOf(t, false)
    ensures Body(Append(Chars(t), Cons(':', Nil)))
  {
    if t != "" {
      assert Ordinary(t[0], false);
      TokenIsBody(t[1..]);
    }
  }

  lemma {:induction false} ExpansionIsPlain(e: string)
    requires FreeOf(e, true)
    ensures Plain(Chars(e))
  {
    if e != "" {
      assert Ordinary(e[0], true);
      ExpansionIsPlain(e[1..]);
    }
  }

  lemma {:induction false} UsableIsWellFormed(markers: List<Marker>)
    requires Usable(markers)
    ensures WellFormed(RulesOf(markers))
  {
    if markers.Cons? {
      TokenIsBody(markers.head.token);
      ExpansionIsPlain(markers.head.expansion);
      UsableIsWellFormed(markers.tail);
    }
  }

  lemma {:induction false} PrefixesDetermineTokens(a: string, b: string)
    requires FreeOf(a, false) && FreeOf(b, false)
    requires Append(Chars(a), Cons(':', Nil)) == Append(Chars(b), Cons(':', Nil))
    ensures a == b
  {
    assert a != "" ==> Ordinary(a[0], false);
    assert b != "" ==> Ordinary(b[0], false);
    if a != "" && b != "" {
      PrefixesDetermineTokens(a[1..], b[1..]);
      assert a == [a[0]] + a[1..] && b == [b[0]] + b[1..];
    }
  }

  lemma {:induction false} UnlistedPrefix(markers: List<Marker>, token: string)
    requires Usable(markers) && FreeOf(token, false) && !Listed(markers, token)
    ensures !PrefixListed(RulesOf(markers), PrefixOf(token))
  {
    if markers.Cons? {
      if PrefixOf(markers.head.token) == PrefixOf(token) {
        PrefixesDetermineTokens(markers.head.token, token);
      }
      UnlistedPrefix(markers.tail, token);
    }
  }

  lemma {:induction false} TokensMakePrefixesDistinct(markers: List<Marker>)
    requires Usable(markers) && DistinctTokens(markers)
    ensures DistinctPrefixes(RulesOf(markers))
  {
    if markers.Cons? {
      UnlistedPrefix(markers.tail, markers.head.token);
      TokensMakePrefixesDistinct(markers.tail);
    }
  }

  const RXJS_STREAMS: List<Marker> :=
    Cons(Marker("obs", "Observable"),
    Cons(Marker("subject", "Subject"),
    Cons(Marker("pipeRx", "PipeRx"),
    Cons(Marker("map", "Map"),
    Cons(Marker("tap", "Tap"),
    Cons(Marker("filter", "Filter"), Nil))))))

  const RXJS_FLOW: List<Marker> :=
    Cons(Marker("catch", "CatchError"),
    Cons(Marker("finalize", "Finalize"),
    Cons(Marker("delay", "Delay"),
    Cons(Marker("combine", "CombineLatest"),
    Cons(Marker("share", "Share"), Nil)))))

  const RXJS_REST: List<Marker> :=
    Cons(Marker("to", "FirstValueFrom"),
    Cons(Marker("with", "WithLatestFrom"),
    Cons(Marker("scan", "Scan"),
    Cons(Marker("distinct", "DistinctUntilChanged"),
    Cons(Marker("retry", "Retry"), Nil)))))

  const NGRX_CREATORS: List<Marker> :=
    Cons(Marker("ngrx", "NgRx"),
    Cons(Marker("action", "createAction"),
    Cons(Marker("reducer", "createReducer"),
    Cons(Marker("effect", "createEffect"),
    Cons(Marker("selector", "createSelector"), Nil)))))

  const NGRX_STORE: List<Marker> :=
    Cons(Marker("entity", "createEntityAdapter"),
    Cons(Marker("store", "Store"),
    Cons(Marker("dispatch", "dispatch"),
    Cons(Marker("select", "select"), Nil))))

  const SIGNALS: List<Marker> :=
    Cons(Marker("sig-effect", "effect()"),
    Cons(Marker("toObservable", "toObservable()"),
    Cons(Marker("linkedSignal", "linkedSignal()"),
    Cons(Marker("toSignal", "toSignal()"),
    Cons(Marker("computed", "computed()"),
    Cons(Marker("signal", "signal()"), Nil))))))

  const FORMS: List<Marker> :=
    Cons(Marker("validator", "Validator"),
    Cons(Marker("control", "FormControl"),
    Cons(Marker("array", "FormArray"),
    Cons(Marker("form", "FormGroup"), Nil))))

  const FORMLY: List<Marker> :=
    Cons(Marker("fexpr", "Formly expression"),
    Cons(Marker("fgroup", "Formly field group"),
    Cons(Marker("ffield", "Formly field"), Nil)))

  const ROUTING: List<Marker> :=
    Cons(Marker("resolver", "Resolver"),
    Cons(Marker("guard", "Guard"),
    Cons(Marker("route", "Route"), Nil)))

  const TESTING: List<Marker> :=
    Cons(Marker("describe", "describe suite"),
    Cons(Marker("testBed", "TestBed configuration"),
    Cons(Marker("spy", "Vitest spy/mock"),
    Cons(Marker("it", "test case"), Nil))))

  /** The registered layers, in expansion order; the two largest are listed in parts. */
  const PHI_EXPANDERS: List<List<Marker>> :=
    Cons(RXJS_STREAMS, Cons(RXJS_FLOW, Cons(RXJS_REST, Cons(NGRX_CREATORS, Cons(NGRX_STORE, Cons(SIGNALS,
    Cons(FORMS, Cons(FORMLY, Cons(ROUTING, Cons(TESTING, Nil))))))))))

  function JoinAll(layers: List<List<Marker>>): List<Marker> {
    if layers.Nil? then Nil else Append(layers.head, JoinAll(layers.tail))
  }

  // ----- The registered tokens are pairwise distinct: each has its own place -----

  function PlaceOfShort(t: string): int {
    if t == "obs" then 0
    else if t == "map" then 3
    else if t == "tap" then 4
    else if t == "to" then 11
    else if t == "with" then 12
    else if t == "scan" then 13
    else if t == "ngrx" then 16
    else if t == "form" then 34
    else if t == "spy" then 43
    else if t == "it" then 44
    else -1
  }

  function PlaceOfMedium(t: string): int {
    if t == "pipeRx" then 2
    else if t == "filter" then 5
    else if t == "catch" then 6
    else if t == "delay" then 8
    else if t == "share" then 10
    else if t == "retry" then 15
    else if t == "action" then 17
    else if t == "effect" then 19
    else if t == "entity" then 21
    else if t == "store" then 22
    else if t == "select" then 24
    else if t == "signal" then 30
    else if t == "array" then 33
    else if t == "fexpr" then 35
    else if t == "fgroup" then 36
    else if t == "ffield" then 37
    else if t == "guard" then 39
    else if t == "route" then 40
    else -1
  }

  function PlaceOfLong(t: string): int {
    if t == "subject" then 1
    else if t == "finalize" then 7
    else if t == "combine" then 9
    else if t == "distinct" then 14
    else if t == "reducer" then 18
    else if t == "selector" then 20
    else if t == "dispatch" then 23
    else if t == "sig-effect" then 25
    else if t == "toObservable" then 26
    else if t == "linkedSignal" then 27
    else if t == "toSignal" then 28
    else if t == "computed" then 29
    else if t == "validator" then 31
    else if t == "control" then 32
    else if t == "resolver" then 38
    else if t == "describe" then 41
    else if t == "testBed" then 42
    else -1
  }

  /** The place of a registered token in the registry, looked up by length. */
  function Place(t: string): int {
    if |t| < 5 then PlaceOfShort(t) else if |t| < 7 then PlaceOfMedium(t) else PlaceOfLong(t)
  }

  ghost predicate PlacedFrom(markers: List<Marker>, n: nat) {
    markers.Cons? ==> Place(markers.head.token) == n && PlacedFrom(markers.tail, n + 1)
  }

  lemma {:induction false} LaterPlaces(markers: List<Marker>, n: nat, token: string)
    requires PlacedFrom(markers, n) && Listed(markers, token)
    ensures Place(token) >= n
  {
    if markers.head.token != token {
      LaterPlaces(markers.tail, n + 1, token);
    }
  }

  lemma {:induction false} PlacedIsDistinct(markers: List<Marker>, n: nat)
    requires PlacedFrom(markers, n)
    ensures DistinctTokens(markers)
  {
    if markers.Cons? {
      PlacedIsDistinct(markers.tail, n + 1);
      if Listed(markers.tail, markers.head.token) {
        LaterPlaces(markers.tail, n + 1, markers.head.token);
      }
    }
  }

  lemma {:induction false} PlacedAppend(a: List<Marker>, b: List<Marker>, n: nat)
    requires Usable(a) && PlacedFrom(a, n) && Usable(b) && PlacedFrom(b, n + Size(a))
    ensures Usable(Append(a, b)) && PlacedFrom(Append(a, b), n)
  {
    if a.Cons? {
      PlacedAppend(a.tail, b, n + 1);
    }
  }

  /** Every layer is usable, and the layers' places follow each other. */
  ghost predicate LayersOk(layers: List<List<Marker>>, n: nat) {
    layers.Cons? ==>
      Usable(layers.head) && PlacedFrom(layers.head, n) && LayersOk(layers.tail, n + Size(layers.head))
  }

  lemma {:induction false} LayersJoin(layers: List<List<Marker>>, n: nat)
    requires LayersOk(layers, n)
    ensures Usable(JoinAll(layers)) && PlacedFrom(JoinAll(layers), n)
  {
    if layers.Cons? {
      LayersJoin(layers.tail, n + Size(layers.head));
      PlacedAppend(layers.head, JoinAll(layers.tail), n);
    }
  }

  lemma {:induction false} RxjsStreamsUsable()
    ensures Usable(RXJS_STREAMS)
  {
  }

  lemma {:induction false} RxjsStreamsPlaced()
    ensures PlacedFrom(RXJS_STREAMS, 0) && Size(RXJS_STREAMS) == 6
  {
  }

  lemma {:induction false} RxjsFlowUsable()
    ensures Usable(RXJS_FLOW)
  {
  }

  lemma {:induction false} RxjsFlowPlaced()
    ensures PlacedFrom(RXJS_FLOW, 6) && Size(RXJS_FLOW) == 5
  {
  }

  lemma {:induction false} RxjsRestUsable()
    ensures Usable(RXJS_REST)
  {
  }

  lemma {:induction false} RxjsRestPlaced()
    ensures PlacedFrom(RXJS_REST, 11) && Size(RXJS_REST) == 5
  {
  }

  lemma {:induction false} NgrxCreatorsUsable()
    ensures Usable(NGRX_CREATORS)
  {
  }

  lemma {:induction false} NgrxCreatorsPlaced()
    ensures PlacedFrom(NGRX_CREATORS, 16) && Size(NGRX_CREATORS) == 5
  {
  }

  lemma {:induction false} NgrxStoreUsable()
    ensures Usable(NGRX_STORE)
  {
  }

  lemma {:induction false} NgrxStorePlaced()
    ensures PlacedFrom(NGRX_STORE, 21) && Size(NGRX_STORE) == 4
  {
  }

  lemma {:induction false} SignalsUsable()
    ensures Usable(SIGNALS)
  {
  }

  lemma {:induction false} SignalsPlaced()
    ensures PlacedFrom(SIGNALS, 25) && Size(SIGNALS) == 6
  {
  }

  lemma {:induction false} FormsUsable()
    ensures Usable(FORMS)
  {
  }

  lemma {:induction false} FormsPlaced()
    ensures PlacedFrom(FORMS, 31) && Size(FORMS) == 4
  {
  }

  lemma {:induction false} FormlyUsable()
    ensures Usable(FORMLY)
  {
  }

  lemma {:induction false} FormlyPlaced()
    ensures PlacedFrom(FORMLY, 35) && Size(FORMLY) == 3
  {
  }

  lemma {:induction false} RoutingUsable()
    ensures Usable(ROUTING)
  {
  }

  lemma {:induction false} RoutingPlaced()
    ensures PlacedFrom(ROUTING, 38) && Size(ROUTING) == 3
  {
  }

  lemma {:induction false} TestingUsable()
    ensures Usable(TESTING)
  {
  }

  lemma {:induction false} TestingPlaced()
    ensures PlacedFrom(TESTING, 41) && Size(TESTING) == 4
  {
  }

  /** The registry passes all checks. */
  lemma {:induction false} LayersChecked()
    ensures LayersOk(PHI_EXPANDERS, 0)
  {
    RxjsStreamsUsable();
    RxjsStreamsPlaced();
    RxjsFlowUsable();
    RxjsFlowPlaced();
    RxjsRestUsable();
    RxjsRestPlaced();
    NgrxCreatorsUsable();
    NgrxCreatorsPlaced();
    NgrxStoreUsable();
    NgrxStorePlaced();
    SignalsUsable();
    SignalsPlaced();
    FormsUsable();
    FormsPlaced();
    FormlyUsable();
    FormlyPlaced();
    RoutingUsable();
    RoutingPlaced();
    TestingUsable();
    TestingPlaced();
  }

  function LayerRules(layers: List<List<Marker>>): List<List<Rule>> {
    if layers.Nil? then Nil else Cons(RulesOf(layers.head), LayerRules(layers.tail))
  }

  lemma {:induction false} RulesOfAppend(a: List<Marker>, b: List<Marker>)
    ensures RulesOf(Append(a, b)) == Append(RulesOf(a), RulesOf(b))
  {
    if a.Cons? {
      RulesOfAppend(a.tail, b);
    }
  }

  lemma {:induction false} FlattenLayers(layers: List<List<Marker>>)
    ensures Flatten(LayerRules(layers)) == RulesOf(JoinAll(layers))
  {
    if layers.Cons? {
      RulesOfAppend(layers.head, JoinAll(layers.tail));
      FlattenLayers(layers.tail);
    }
  }

  /** Checked layers have the shape the general results ask for, and no two of their markers share a prefix. */
  lemma {:induction false} CheckedLayers(layers: List<List<Marker>>)
    requires LayersOk(layers, 0)
    ensures WellFormed(Flatten(LayerRules(layers)))
    ensures DistinctPrefixes(Flatten(LayerRules(layers)))
  {
    LayersJoin(layers, 0);
    FlattenLayers(layers);
    UsableIsWellFormed(JoinAll(layers));
    PlacedIsDistinct(JoinAll(layers), 0);
    TokensMakePrefixesDistinct(JoinAll(layers));
  }

  /** The rules of the layers, in expansion order. */
  function AllRules(layers: List<List<Marker>>): List<Rule> {
    Flatten(LayerRules(layers))
  }

  /** `order` lists the markers of the layers, each once. */
  ghost predicate Lists(order: List<Rule>, layers: List<List<Marker>>) {
    WellFormed(order) && DistinctPrefixes(order) && forall r :: Has(order, r) <==> Has(AllRules(layers), r)
  }

  /** Chained replacement through the layers is one pass, in whatever order the markers are listed, and is stable. */
  ghost predicate ExpandInOnePass(layers: List<List<Marker>>, order: List<Rule>, line: Text)
    requires WellFormed(AllRules(layers)) && WellFormed(order)
  {
    && Chain(AllRules(layers), line) == OnePass(order, line)
    && Chain(order, OnePass(order, line)) == OnePass(order, line)
  }

  lemma {:induction false} CheckedLayersExpandInOnePass(layers: List<List<Marker>>, order: List<Rule>, line: Text)
    requires LayersOk(layers, 0) && Lists(order, layers)
    ensures WellFormed(AllRules(layers)) && ExpandInOnePass(layers, order, line)
  {
    CheckedLayers(layers);
    ChainIsOnePass(AllRules(layers), line);
    RegistrationOrderIrrelevant(order, AllRules(layers), line);
    ChainIsOnePass(order, line);
    ChainIdempotent(order, line);
  }

  /** The registry itself: its chained expanders equal one pass over its markers, in any order. */
  lemma {:induction false} RegistryExpandsInOnePass(order: List<Rule>, line: Text)
    requires Lists(order, PHI_EXPANDERS)
    ensures WellFormed(AllRules(PHI_EXPANDERS)) && ExpandInOnePass(PHI_EXPANDERS, order, line)
  {
    LayersChecked();
    CheckedLayersExpandInOnePass(PHI_EXPANDERS, order, line);
  }

  /** The expanders of checked layers, such as the registry, one after the other. */
  method ExpandMarkers(layers: List<List<Marker>>, line: Text, ghost order: List<Rule>) returns (s: Text)
    requires LayersOk(layers, 0) && Lists(order, layers)
    ensures s == OnePass(order, line) && Chain(order, s) == s
  {
    CheckedLayers(layers);
    s := ExpandAll(LayerRules(layers), line);
    ChainIsOnePass(AllRules(layers), line);
    CheckedLayersExpandInOnePass(layers, order, line);
  }

  /** What the code runs: the registered expanders on a line. */
  method ExpandRegistered(line: Text, ghost order: List<Rule>) returns (s: Text)
    requires Lists(order, PHI_EXPANDERS)
    ensures s == OnePass(order, line) && Chain(order, s) == s
  {
    LayersChecked();
    s := ExpandMarkers(PHI_EXPANDERS, line, order);
  }
}
