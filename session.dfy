/**
  The dashboard's per-user session store (`st.session_state`): a key/value
  map that survives the page's reruns. Every rerun first gives the date key
  a fresh value and adds the other keys as None when they are missing; the
  setup panel writes the organism, seed, currency and investment; the
  Initialize button creates the lab and the host; the Reset button clears
  the initialization flag and the lab. Of the session keys, only the lab
  decides whether the batch form can be shown; the selected fermentation
  type decides the rest.

  The lab (`DigLabSim`) and the host (`create_host`) are objects of the
  simulation library; here each is represented by the arguments it was
  built from, so equal arguments give equal objects.
*/
module Session {

  /** A value held under a session key. */
  datatype Value =
    | Null                                          // Python's None
    | Flag(b: bool)
    | Str(s: string)
    | Int(n: int)
    | Lab(seed: Value, invest: Value, budget: int)  // DigLabSim(seed, investment, budget)
    | HostOf(lab: Value, organism: Value)           // lab.create_host(organism)

  /** The session keys the page uses: `date`, `ExpInit`, `exp`, `host`,
      `currency`, `LabInvest`, `rand_seed`, `organism` and `GSMM`. */
  datatype Key =
    | DateKey | ExpInitKey | ExpKey | HostKey | CurrencyKey
    | InvestKey | SeedKey | OrganismKey | GsmmKey

  type Store = map<Key, Value>

  /** The keys a rerun adds as None when they are missing. */
  const Defaulted: set<Key> :=
    {ExpInitKey, ExpKey, HostKey, CurrencyKey, InvestKey, SeedKey, OrganismKey, GsmmKey}

  /** The choices offered by the setup panel. */
  const Organisms: set<string> := {"E.coli-core", "E.coli", "S.cerevisiae", "B.subtilis"}
  const Currencies: set<string> := {"EURO", "Dollar", "Yuan", "Rupee", "Yen"}
  const MaxSeed: int := 999999

  /** The options of the sidebar's fermentation-type box. */
  datatype FermentationType = Select | Batch | Continuous

  /** What the experiment section of the page shows. */
  datatype Section =
    | BatchForm         // the shake-flask form
    | InitFirstWarning  // "Please initialize the experiment first."
    | SelectHint        // the hint to pick a fermentation type

  /** Every key the page reads is present. */
  predicate Ready(m: Store) {
    DateKey in m && Defaulted <= m.Keys
  }

  /** The store once the date is written and the keys `ks` have been
      created as None where they were absent. */
  function PartlyInitialized(m: Store, date: string, ks: set<Key>): Store {
    map k | k in m.Keys + ks + {DateKey} ::
      if k == DateKey then Str(date) else if k in m then m[k] else Null
  }

  /** The block every rerun starts with: the date key is rewritten, the
      other keys are created as None only when absent, so no existing value
      is ever overwritten. */
  function InitStore(m: Store, date: string): (r: Store)
    ensures Ready(r)
    ensures r.Keys == m.Keys + Defaulted + {DateKey}
    ensures r[DateKey] == Str(date)
    ensures forall k :: k in m && k != DateKey ==> r[k] == m[k]
    ensures forall k :: k in Defaulted && k !in m ==> r[k] == Null
  {
    PartlyInitialized(m, date, Defaulted)
  }

  /** `if k not in st.session_state: st.session_state[k] = None`. */
  function WithDefault(m: Store, k: Key): Store {
    if k in m then m else m[k := Null]
  }

  lemma DateWritten(m: Store, date: string)
    ensures m[DateKey := Str(date)] == PartlyInitialized(m, date, {})
  {
  }

  lemma DefaultStep(m: Store, date: string, ks: set<Key>, k: Key)
    requires k != DateKey
    ensures WithDefault(PartlyInitialized(m, date, ks), k) == PartlyInitialized(m, date, ks + {k})
  {
  }

  /** The init block, statement by statement, computes `InitStore`. */
  lemma InitBlock(m: Store, date: string)
    ensures var m0 := m[DateKey := Str(date)];
      var m4 := WithDefault(WithDefault(WithDefault(WithDefault(m0, ExpInitKey), ExpKey), HostKey), CurrencyKey);
      WithDefault(WithDefault(WithDefault(WithDefault(m4, InvestKey), SeedKey), OrganismKey), GsmmKey)
        == InitStore(m, date)
  {
    DateWritten(m, date);
    var k0: set<Key> := {};
    var k1 := k0 + {ExpInitKey};
    var k2 := k1 + {ExpKey};
    var k3 := k2 + {HostKey};
    var k4 := k3 + {CurrencyKey};
    var k5 := k4 + {InvestKey};
    var k6 := k5 + {SeedKey};
    var k7 := k6 + {OrganismKey};
    var k8 := k7 + {GsmmKey};
    assert k8 == Defaulted;
    DefaultStep(m, date, k0, ExpInitKey);
    DefaultStep(m, date, k1, ExpKey);
    DefaultStep(m, date, k2, HostKey);
    DefaultStep(m, date, k3, CurrencyKey);
    DefaultStep(m, date, k4, InvestKey);
    DefaultStep(m, date, k5, SeedKey);
    DefaultStep(m, date, k6, OrganismKey);
    DefaultStep(m, date, k7, GsmmKey);
  }

  /** A second rerun changes nothing but the date. */
  lemma InitStoreIdempotent(m: Store, d1: string, d2: string)
    ensures InitStore(InitStore(m, d1), d2) == InitStore(m, d2)
  {
    var a := InitStore(InitStore(m, d1), d2);
    var b := InitStore(m, d2);
    assert a.Keys == b.Keys;
  }

  /** The setup panel's widgets write their values. */
  function SetupStore(m: Store, organism: string, seed: int, currency: string, invest: int): (r: Store)
    ensures r.Keys == m.Keys + {OrganismKey, SeedKey, CurrencyKey, InvestKey}
    ensures r[OrganismKey] == Str(organism) && r[SeedKey] == Int(seed)
    ensures r[CurrencyKey] == Str(currency) && r[InvestKey] == Int(invest)
    ensures forall k :: k in m && k !in {OrganismKey, SeedKey, CurrencyKey, InvestKey} ==> r[k] == m[k]
  {
    m[OrganismKey := Str(organism)][SeedKey := Int(seed)][CurrencyKey := Str(currency)][InvestKey := Int(invest)]
  }

  /** The Initialize button: a lab from the stored seed and investment and
      the total budget, a host of the stored organism created by that lab,
      and the initialization flag set. */
  function InitializeStore(m: Store, budget: int): (r: Store)
    requires Ready(m)
    ensures r.Keys == m.Keys
    ensures r[ExpKey] == Lab(m[SeedKey], m[InvestKey], budget)
    ensures r[HostKey] == HostOf(r[ExpKey], m[OrganismKey])
    ensures r[ExpInitKey] == Flag(true)
    ensures forall k :: k in m && k !in {ExpKey, HostKey, ExpInitKey} ==> r[k] == m[k]
  {
    var lab := Lab(m[SeedKey], m[InvestKey], budget);
    m[ExpKey := lab][HostKey := HostOf(lab, m[OrganismKey])][ExpInitKey := Flag(true)]
  }

  /** The Reset button clears the initialization flag and the lab and
      nothing else; in particular the host stays. */
  function ResetStore(m: Store): (r: Store)
    ensures r.Keys == m.Keys + {ExpInitKey, ExpKey}
    ensures r[ExpInitKey] == Null && r[ExpKey] == Null
    ensures forall k :: k in m && k != ExpInitKey && k != ExpKey ==> r[k] == m[k]
  {
    m[ExpInitKey := Null][ExpKey := Null]
  }

  /** The experiment section: the batch form when Batch is selected and a
      lab exists; otherwise the warning when there is no lab, the hint when
      there is one. */
  function BatchView(m: Store, sel: FermentationType): (s: Section)
    requires ExpKey in m
    ensures s == BatchForm <==> sel == Batch && m[ExpKey] != Null
    ensures s == InitFirstWarning <==> m[ExpKey] == Null
    ensures s == SelectHint <==> sel != Batch && m[ExpKey] != Null
  {
    if sel == Batch && m[ExpKey] != Null then BatchForm
    else if m[ExpKey] == Null then InitFirstWarning
    else SelectHint
  }

  /** After Reset, and on the rerun that follows, the batch form is withheld
      and the "initialize first" warning is shown, whatever fermentation type
      is selected. For every later rerun until the next Initialize, see
      `Lifecycle`. */
  lemma ResetBlocksBatch(m: Store, date: string, sel: FermentationType)
    ensures BatchView(ResetStore(m), sel) == InitFirstWarning
    ensures BatchView(InitStore(ResetStore(m), date), sel) == InitFirstWarning
  {
  }

  /** After Initialize the next rerun offers the batch form. */
  lemma InitializeEnablesBatch(m: Store, budget: int, date: string)
    requires Ready(m)
    ensures BatchView(InitStore(InitializeStore(m, budget), date), Batch) == BatchForm
  {
  }

  /** One user action on the page. */
  datatype Event =
    | Rerun(date: string)
    | Setup(organism: string, seed: int, currency: string, invest: int)
    | Initialize
    | Reset

  /** The store after one action. */
  function Step(m: Store, e: Event, budget: int): (r: Store)
    requires Ready(m)
    ensures Ready(r)
  {
    match e
    case Rerun(d) => InitStore(m, d)
    case Setup(o, s, c, i) => SetupStore(m, o, s, c, i)
    case Initialize => InitializeStore(m, budget)
    case Reset => ResetStore(m)
  }

  /** How one action moves the lab, the flag and the host. */
  lemma StepLifecycle(m: Store, e: Event, budget: int)
    requires Ready(m)
    ensures var r := Step(m, e, budget);
      && (r[ExpKey] != Null <==> e.Initialize? || (!e.Reset? && m[ExpKey] != Null))
      && (r[ExpInitKey] == Flag(true) <==> e.Initialize? || (!e.Reset? && m[ExpInitKey] == Flag(true)))
      && (r[HostKey] != Null <==> e.Initialize? || m[HostKey] != Null)
  {
  }

  /** The store after a series of actions. */
  function Apply(m: Store, events: seq<Event>, budget: int): (r: Store)
    requires Ready(m)
    ensures Ready(r)
    decreases |events|
  {
    if events == [] then m
    else Step(Apply(m, events[..|events| - 1], budget), events[|events| - 1], budget)
  }

  /** Some Initialize has happened after the last Reset. */
  predicate Armed(events: seq<Event>)
    decreases |events|
  {
    events != [] &&
    match events[|events| - 1]
    case Initialize => true
    case Reset => false
    case _ => Armed(events[..|events| - 1])
  }

  /** Some Initialize has happened at all. */
  predicate EverInitialized(events: seq<Event>)
    decreases |events|
  {
    events != [] && (events[|events| - 1] == Initialize || EverInitialized(events[..|events| - 1]))
  }

  /** The lifecycle invariant of a session that starts empty: the lab is
      present and the flag is set exactly when an Initialize came after the
      last Reset, while the host, once created, survives every Reset. */
  lemma {:induction false} Lifecycle(date: string, events: seq<Event>, budget: int)
    ensures var r := Apply(InitStore(map[], date), events, budget);
      && (r[ExpKey] != Null <==> Armed(events))
      && (r[ExpInitKey] == Flag(true) <==> Armed(events))
      && (r[HostKey] != Null <==> EverInitialized(events))
    decreases |events|
  {
    if events != [] {
      var prefix := events[..|events| - 1];
      Lifecycle(date, prefix, budget);
      StepLifecycle(Apply(InitStore(map[], date), prefix, budget), events[|events| - 1], budget);
    }
  }

  /** The setup values present in the store lie in the ranges of the
      widgets that wrote them. */
  predicate InRange(m: Store, budget: int) {
    && (OrganismKey in m ==> m[OrganismKey] == Null || (m[OrganismKey].Str? && m[OrganismKey].s in Organisms))
    && (SeedKey in m ==> m[SeedKey] == Null || (m[SeedKey].Int? && 0 <= m[SeedKey].n <= MaxSeed))
    && (CurrencyKey in m ==> m[CurrencyKey] == Null || (m[CurrencyKey].Str? && m[CurrencyKey].s in Currencies))
    && (InvestKey in m ==> m[InvestKey] == Null || (m[InvestKey].Int? && 0 <= m[InvestKey].n <= budget))
  }

  /** The session store of one browser session. */
  class SessionState {
    var store: Store
    /** The total lab budget (`Budget` of the variables module). */
    const budget: int

    /** The page always finds its keys, and the setup widgets only ever
        store values from their ranges. */
    ghost predicate Valid()
      reads this
    {
      Ready(store) && InRange(store, budget)
    }

    /** The first page load: the store starts empty and the init block runs. */
    constructor (date: string, budget: int)
      ensures Valid()
      ensures store == InitStore(map[], date) && this.budget == budget
    {
      this.budget := budget;
      store := map[];
      new;
      Rerun(date);
    }

    /** The init block every rerun starts with. */
    method Rerun(date: string)
      requires InRange(store, budget)
      modifies this
      ensures Valid()
      ensures store == InitStore(old(store), date)
    {
      ghost var m := store;
      store := store[DateKey := Str(date)];
      SetDefault(ExpInitKey);
      SetDefault(ExpKey);
      SetDefault(HostKey);
      SetDefault(CurrencyKey);
      SetDefault(InvestKey);
      SetDefault(SeedKey);
      SetDefault(OrganismKey);
      SetDefault(GsmmKey);
      InitBlock(m, date);
    }

    /** `if k not in st.session_state: st.session_state[k] = None`. */
    method SetDefault(k: Key)
      modifies this
      ensures store == WithDefault(old(store), k)
    {
      if k !in store {
        store := store[k := Null];
      }
    }

    /** The setup panel's widgets. */
    method Setup(organism: string, seed: int, currency: string, invest: int)
      requires Valid()
      requires organism in Organisms && 0 <= seed <= MaxSeed
      requires currency in Currencies && 0 <= invest <= budget
      modifies this
      ensures Valid()
      ensures store == SetupStore(old(store), organism, seed, currency, invest)
    {
      store := store[OrganismKey := Str(organism)];
      store := store[SeedKey := Int(seed)];
      store := store[CurrencyKey := Str(currency)];
      store := store[InvestKey := Int(invest)];
    }

    /** The Initialize button. */
    method Initialize()
      requires Valid()
      modifies this
      ensures Valid()
      ensures store == InitializeStore(old(store), budget)
    {
      store := store[ExpKey := Lab(store[SeedKey], store[InvestKey], budget)];
      store := store[HostKey := HostOf(store[ExpKey], store[OrganismKey])];
      store := store[ExpInitKey := Flag(true)];
    }

    /** The Reset button. */
    method Reset()
      requires Valid()
      modifies this
      ensures Valid()
      ensures store == ResetStore(old(store))
    {
      store := store[ExpInitKey := Null];
      store := store[ExpKey := Null];
    }

    /** Which experiment section the page renders for the selected
        fermentation type. */
    method ExperimentSection(sel: FermentationType) returns (s: Section)
      requires Valid()
      ensures s == BatchForm <==> sel == Batch && store[ExpKey] != Null
      ensures s == InitFirstWarning <==> store[ExpKey] == Null
      ensures s == BatchView(store, sel)
    {
      if sel == Batch && store[ExpKey] != Null {
        s := BatchForm;
      } else if store[ExpKey] == Null {
        s := InitFirstWarning;
      } else {
        s := SelectHint;
      }
    }
  }
}
