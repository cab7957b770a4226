/** Passive scoring of ports: three sources add what they know to one profile, in any order. */
module Osint {
  import opened Bytes
  import opened Strings
  import opened Wrappers

  type Scores = map<Port, real>

  /** A port and the score some source gives it. */
  type Boost = (Port, real)

  /** Keyword rules: what a host name containing the keyword suggests. */
  type Rules = map<Text, Scores>

  datatype CloudProvider = Aws | Gcp | Azure | OtherCloud | NoCloud

  datatype AsnInfo = AsnInfo(asn: nat, organization: Text, cloud: CloudProvider)

  const DEFAULTS: Scores := map[22 := 0.30, 80 := 0.40, 443 := 0.40, 25 := 0.15, 53 := 0.15]

  // ---- what the sources contribute ---------------------------------------------------------

  function KeywordBoosts(name: Text, rules: Rules, keywords: set<Text>): set<Boost> {
    set k, p | k in keywords && k in rules && Contains(ToLower(name), k) && p in rules[k] :: (p, rules[k][p])
  }

  function NameBoosts(name: Text, rules: Rules): set<Boost> { KeywordBoosts(name, rules, rules.Keys) }

  function NamesBoosts(names: set<Text>, rules: Rules): set<Boost> {
    set n, b | n in names && b in NameBoosts(n, rules) :: b
  }

  const COMMON_CLOUD: set<Boost> := {(22, 0.70), (443, 0.80), (80, 0.75), (8080, 0.50)}

  function ProviderBoosts(cloud: CloudProvider): set<Boost> {
    match cloud
    case Aws => {(5432, 0.40), (3306, 0.40), (6379, 0.35)}
    case Gcp => {(8443, 0.45)}
    case Azure => {(3389, 0.50), (1433, 0.40)}
    case _ => {}
  }

  function CloudBoosts(cloud: CloudProvider): set<Boost> {
    if cloud.NoCloud? then {} else COMMON_CLOUD + ProviderBoosts(cloud)
  }

  function SetOf(names: seq<Text>): set<Text> { set n | n in names }

  function Names(source: Option<seq<Text>>): set<Text> {
    match source case Some(names) => SetOf(names) case None => {}
  }

  /** Everything the sources that answered contribute. */
  function AllBoosts(dns: Option<seq<Text>>, asn: Option<AsnInfo>, ct: Option<seq<Text>>, rules: Rules): set<Boost> {
    NamesBoosts(Names(dns) + Names(ct), rules)
    + (match asn case Some(info) => CloudBoosts(info.cloud) case None => {})
  }

  // ---- pointwise maximum -------------------------------------------------------------------

  /** Each boosted port has the greatest score any source gives it, and no other port has a score. */
  ghost predicate IsMax(scores: Scores, boosts: set<Boost>) {
    && (forall p :: p in scores ==> (p, scores[p]) in boosts)
    && (forall b :: b in boosts ==> b.0 in scores && b.1 <= scores[b.0])
  }

  /** As `IsMax`, with the default for a port no source boosts. */
  ghost predicate IsProfile(scores: Scores, boosts: set<Boost>) {
    && (forall p :: p in scores ==> (p, scores[p]) in boosts || (p in DEFAULTS && scores[p] == DEFAULTS[p]))
    && (forall b :: b in boosts ==> b.0 in scores && b.1 <= scores[b.0] && (b.0, scores[b.0]) in boosts)
    && (forall p :: p in DEFAULTS ==> p in scores)
  }

  /** `boostIfHigher` */
  function Boosted(scores: Scores, p: Port, s: real): Scores {
    if p !in scores || s > scores[p] then scores[p := s] else scores
  }

  lemma BoostedIsMax(scores: Scores, boosts: set<Boost>, p: Port, s: real)
    requires IsMax(scores, boosts)
    ensures IsMax(Boosted(scores, p, s), boosts + {(p, s)})
  {}

  function Defaulted(scores: Scores): Scores { DEFAULTS + scores }

  lemma DefaultedIsProfile(scores: Scores, boosts: set<Boost>)
    requires IsMax(scores, boosts)
    ensures IsProfile(Defaulted(scores), boosts)
  {}

  /** The contributions alone determine the profile. */
  lemma ProfileIsUnique(a: Scores, b: Scores, boosts: set<Boost>)
    requires IsProfile(a, boosts) && IsProfile(b, boosts)
    ensures a == b
  {
    forall p | p in a || p in b ensures p in a && p in b && a[p] == b[p] {
      if p in a && (p, a[p]) in boosts {
        assert (p, a[p]).0 in b;
      }
      if p in b && (p, b[p]) in boosts {
        assert (p, b[p]).0 in a;
      }
    }
  }

  // ---- the profile object ------------------------------------------------------------------

  datatype Section = ReverseDns | Asn | Ct

  class Profile {
    const rules: Rules
    var hostnames: seq<Text>
    var portScores: Scores
    var asn: Option<AsnInfo>
    ghost var boosts: set<Boost>

    ghost predicate Valid()
      reads this
    {
      IsMax(portScores, boosts) && NamesBoosts(SetOf(hostnames), rules) <= boosts
    }

    constructor (table: Rules)
      ensures Valid() && rules == table && hostnames == [] && portScores == map[] && asn == None && boosts == {}
    {
      rules := table;
      hostnames, portScores, asn, boosts := [], map[], None, {};
    }

    method BoostIfHigher(p: Port, s: real)
      requires IsMax(portScores, boosts)
      modifies this`portScores, this`boosts
      ensures IsMax(portScores, boosts) && boosts == old(boosts) + {(p, s)}
    {
      BoostedIsMax(portScores, boosts, p, s);
      if p !in portScores || s > portScores[p] {
        portScores := portScores[p := s];
      }
      boosts := boosts + {(p, s)};
    }

    /** Two nested walks over maps, each in whatever order. */
    method ScoreFromHostname(name: Text)
      requires IsMax(portScores, boosts)
      modifies this`portScores, this`boosts
      ensures IsMax(portScores, boosts) && boosts == old(boosts) + NameBoosts(name, rules)
    {
      hide IsMax, Contains, KeywordBoosts;
      var lower := ToLower(name);
      var rest := rules.Keys;
      NoKeywords(name, rules);
      while rest != {}
        invariant rest <= rules.Keys
        invariant IsMax(portScores, boosts)
        invariant boosts == old(boosts) + KeywordBoosts(name, rules, rules.Keys - rest)
      {
        var k :| k in rest;
        if Contains(lower, k) {
          ScoreKeyword(rules[k]);
        }
        OneMoreKeyword(name, rules, rules.Keys - rest, k);
        assert rules.Keys - (rest - {k}) == (rules.Keys - rest) + {k};
        rest := rest - {k};
      }
      assert rules.Keys - rest == rules.Keys;
    }

    method ScoreKeyword(ports: Scores)
      requires IsMax(portScores, boosts)
      modifies this`portScores, this`boosts
      ensures IsMax(portScores, boosts) && boosts == old(boosts) + (set p | p in ports :: (p, ports[p]))
    {
      var rest := ports.Keys;
      while rest != {}
        invariant rest <= ports.Keys
        invariant IsMax(portScores, boosts)
        invariant boosts == old(boosts) + (set p | p in ports && p !in rest :: (p, ports[p]))
      {
        var p :| p in rest;
        BoostIfHigher(p, ports[p]);
        rest := rest - {p};
      }
    }

    method ScoreAll(names: seq<Text>)
      requires IsMax(portScores, boosts)
      modifies this`portScores, this`boosts
      ensures IsMax(portScores, boosts) && boosts == old(boosts) + NamesBoosts(SetOf(names), rules)
    {
      hide IsMax, NameBoosts;
      for i := 0 to |names|
        invariant IsMax(portScores, boosts)
        invariant boosts == old(boosts) + NamesBoosts(SetOf(names[..i]), rules)
      {
        ScoreFromHostname(names[i]);
        OneMoreName(names[..i], names[i], rules);
        assert names[..i + 1] == names[..i] + [names[i]];
      }
      assert names[..|names|] == names;
    }

    /** The reverse-DNS goroutine, under the lock: names are appended as they come. */
    method ReverseDnsSection(names: seq<Text>)
      requires Valid()
      modifies this`hostnames, this`portScores, this`boosts
      ensures Valid() && hostnames == old(hostnames) + names
      ensures boosts == old(boosts) + NamesBoosts(SetOf(names), rules)
    {
      hostnames := hostnames + names;
      ScoreAll(names);
    }

    /** The ASN goroutine, under the lock. */
    method AsnSection(info: AsnInfo)
      requires Valid()
      modifies this`asn, this`portScores, this`boosts
      ensures Valid() && asn == Some(info)
      ensures boosts == old(boosts) + CloudBoosts(info.cloud)
    {
      asn := Some(info);
      if !info.cloud.NoCloud? {
        ScoreCloudPorts(info.cloud);
      }
    }

    method ScoreCloudPorts(cloud: CloudProvider)
      requires IsMax(portScores, boosts) && !cloud.NoCloud?
      modifies this`portScores, this`boosts
      ensures IsMax(portScores, boosts) && boosts == old(boosts) + CloudBoosts(cloud)
    {
      hide IsMax;
      BoostIfHigher(22, 0.70);
      BoostIfHigher(443, 0.80);
      assert boosts == old(boosts) + {(22, 0.70), (443, 0.80)};
      BoostIfHigher(80, 0.75);
      BoostIfHigher(8080, 0.50);
      assert boosts == old(boosts) + COMMON_CLOUD;
      ScoreProviderPorts(cloud);
    }

    method ScoreProviderPorts(cloud: CloudProvider)
      requires IsMax(portScores, boosts)
      modifies this`portScores, this`boosts
      ensures IsMax(portScores, boosts) && boosts == old(boosts) + ProviderBoosts(cloud)
    {
      hide IsMax;
      match cloud {
        case Aws =>
          BoostIfHigher(5432, 0.40);
          BoostIfHigher(3306, 0.40);
          BoostIfHigher(6379, 0.35);
        case Gcp =>
          BoostIfHigher(8443, 0.45);
        case Azure =>
          BoostIfHigher(3389, 0.50);
          BoostIfHigher(1433, 0.40);
        case _ =>
      }
    }

    /** The certificate-transparency goroutine, under the lock: a name already listed is neither
        appended nor scored again. */
    method CtSection(names: seq<Text>)
      requires Valid()
      modifies this`hostnames, this`portScores, this`boosts
      ensures Valid() && SetOf(hostnames) == SetOf(old(hostnames)) + SetOf(names)
      ensures NewOnes(old(hostnames), hostnames)
      ensures boosts == old(boosts) + NamesBoosts(SetOf(names), rules)
    {
      for i := 0 to |names|
        invariant Valid() && NewOnes(old(hostnames), hostnames)
        invariant SetOf(hostnames) == SetOf(old(hostnames)) + SetOf(names[..i])
        invariant boosts == old(boosts) + NamesBoosts(SetOf(names[..i]), rules)
      {
        OneMoreName(names[..i], names[i], rules);
        assert names[..i + 1] == names[..i] + [names[i]];
        if names[i] !in hostnames {
          OneMoreName(hostnames, names[i], rules);
          OneNew(old(hostnames), hostnames, names[i]);
          hostnames := hostnames + [names[i]];
          ScoreFromHostname(names[i]);
        } else {
          KnownName(names[i], SetOf(hostnames), rules);
        }
      }
      assert names[..|names|] == names;
    }

    /** Baselines for common ports that nothing has scored. */
    method ApplyDefaults()
      requires IsMax(portScores, boosts)
      modifies this`portScores
      ensures portScores == Defaulted(old(portScores)) && IsProfile(portScores, boosts)
    {
      hide IsMax, IsProfile;
      var rest := DEFAULTS.Keys;
      while rest != {}
        invariant rest <= DEFAULTS.Keys
        invariant portScores ==
                  map p | p in DEFAULTS.Keys + old(portScores).Keys && (p in old(portScores) || p !in rest)
                                  :: if p in old(portScores) then old(portScores)[p] else DEFAULTS[p]
      {
        var p :| p in rest;
        if p !in portScores { portScores := portScores[p := DEFAULTS[p]]; }
        rest := rest - {p};
      }
      assert portScores == Defaulted(old(portScores));
      DefaultedIsProfile(old(portScores), boosts);
    }

    /** The three locked sections in some order, each skipped when its source failed, then the defaults.
        Scores and the set of names do not depend on the order. */
    method Predict(order: seq<Section>, dns: Option<seq<Text>>, info: Option<AsnInfo>, ct: Option<seq<Text>>)
      requires Valid() && hostnames == [] && portScores == map[] && asn == None && boosts == {}
      requires |order| == 3 && ReverseDns in order && Asn in order && Ct in order
      modifies this
      ensures IsProfile(portScores, AllBoosts(dns, info, ct, rules))
      ensures SetOf(hostnames) == Names(dns) + Names(ct)
      ensures asn == info
    {
      hide NamesBoosts, CloudBoosts, Names, SectionBoosts, AllBoosts, IsMax, IsProfile;
      NothingDone(dns, info, ct, rules);
      for i := 0 to 3
        invariant Valid()
        invariant SetOf(hostnames) == (if ReverseDns in order[..i] then Names(dns) else {}) +
            (if Ct in order[..i] then Names(ct) else {})
        invariant asn == if Asn in order[..i] then info else None
        invariant boosts == DoneBoosts(order[..i], dns, info, ct, rules)
      {
        assert order[..i + 1] == order[..i] + [order[i]];
        assert order[i] !in order[..i];
        OneMoreSection(order[..i], order[i], dns, info, ct, rules);
        RunSection(order[i], dns, info, ct);
      }
      assert order[..3] == order;
      DoneIsAll(order, dns, info, ct, rules);
      ApplyDefaults();
    }

    method RunSection(section: Section, dns: Option<seq<Text>>, info: Option<AsnInfo>, ct: Option<seq<Text>>)
      requires Valid()
      modifies this
      ensures Valid()
      ensures boosts == old(boosts) + SectionBoosts(section, dns, info, ct, rules)
      ensures SetOf(hostnames) == SetOf(old(hostnames)) +
          (match section case ReverseDns => Names(dns) case Ct => Names(ct) case Asn => {})
      ensures asn == if section.Asn? && info.Some? then info else old(asn)
    {
      match section {
        case ReverseDns => if dns.Some? { ReverseDnsSection(dns.value); }
        case Asn => if info.Some? { AsnSection(info.value); }
        case Ct => if ct.Some? { CtSection(ct.value); }
      }
    }
  }

  /** `all` goes on from `before` with names not listed yet. */
  ghost predicate NewOnes(before: seq<Text>, all: seq<Text>) {
    before <= all && forall i :: |before| <= i < |all| ==> all[i] !in all[..i]
  }

  lemma OneNew(before: seq<Text>, all: seq<Text>, n: Text)
    requires NewOnes(before, all) && n !in all
    ensures NewOnes(before, all + [n])
  {
    forall i | |before| <= i <= |all| ensures (all + [n])[i] !in (all + [n])[..i] {
      assert (all + [n])[..i] == all[..i];
    }
  }

  // ---- lemmas on contributions -------------------------------------------------------------

  lemma NoKeywords(name: Text, rules: Rules)
    ensures KeywordBoosts(name, rules, rules.Keys - rules.Keys) == {}
  {}

  lemma OneMoreKeyword(name: Text, rules: Rules, done: set<Text>, k: Text)
    requires k in rules
    ensures KeywordBoosts(name, rules, done + {k}) ==
            KeywordBoosts(name, rules, done)
            + (if Contains(ToLower(name), k) then (set p | p in rules[k] :: (p, rules[k][p])) else {})
  {}

  lemma OneMoreName(names: seq<Text>, n: Text, rules: Rules)
    ensures SetOf(names + [n]) == SetOf(names) + {n}
    ensures NamesBoosts(SetOf(names + [n]), rules) == NamesBoosts(SetOf(names), rules) + NameBoosts(n, rules)
  {}

  lemma KnownName(n: Text, names: set<Text>, rules: Rules)
    requires n in names
    ensures NameBoosts(n, rules) <= NamesBoosts(names, rules)
  {}

  ghost function SectionBoosts(s: Section, dns: Option<seq<Text>>, info: Option<AsnInfo>, ct: Option<seq<Text>>,
                               rules: Rules): set<Boost> {
    match s
    case ReverseDns => NamesBoosts(Names(dns), rules)
    case Asn => (match info case Some(i) => CloudBoosts(i.cloud) case None => {})
    case Ct => NamesBoosts(Names(ct), rules)
  }

  ghost function DoneBoosts(done: seq<Section>, dns: Option<seq<Text>>, info: Option<AsnInfo>, ct: Option<seq<Text>>,
                            rules: Rules): set<Boost> {
    (if ReverseDns in done then SectionBoosts(ReverseDns, dns, info, ct, rules) else {})
    + (if Asn in done then SectionBoosts(Asn, dns, info, ct, rules) else {})
    + (if Ct in done then SectionBoosts(Ct, dns, info, ct, rules) else {})
  }

  lemma NothingDone(dns: Option<seq<Text>>, info: Option<AsnInfo>, ct: Option<seq<Text>>, rules: Rules)
    ensures DoneBoosts([], dns, info, ct, rules) == {}
  {}

  lemma OneMoreSection(done: seq<Section>, s: Section, dns: Option<seq<Text>>, info: Option<AsnInfo>,
                       ct: Option<seq<Text>>, rules: Rules)
    ensures DoneBoosts(done + [s], dns, info, ct, rules) ==
            DoneBoosts(done, dns, info, ct, rules) + SectionBoosts(s, dns, info, ct, rules)
  {}

  lemma DoneIsAll(order: seq<Section>, dns: Option<seq<Text>>, info: Option<AsnInfo>, ct: Option<seq<Text>>,
                  rules: Rules)
    requires ReverseDns in order && Asn in order && Ct in order
    ensures DoneBoosts(order, dns, info, ct, rules) == AllBoosts(dns, info, ct, rules)
  {}

  /** Whatever orders two predictions took, equal answers from the sources give equal scores. */
  lemma PredictionsAgree(a: Scores, b: Scores, dns: Option<seq<Text>>, info: Option<AsnInfo>, ct: Option<seq<Text>>,
                         rules: Rules, p: Port)
    requires IsProfile(a, AllBoosts(dns, info, ct, rules)) && IsProfile(b, AllBoosts(dns, info, ct, rules))
    ensures a == b
    ensures p in a && (forall s :: (p, s) !in AllBoosts(dns, info, ct, rules)) ==> p in DEFAULTS && a[p] == DEFAULTS[p]
  {
    ProfileIsUnique(a, b, AllBoosts(dns, info, ct, rules));
  }

  // ---- what the scores come to -------------------------------------------------------------

  /** A name contributes what a rule gives whose keyword stands somewhere in the name in lower case. */
  lemma NamesScoreIff(names: set<Text>, rules: Rules, p: Port, s: real)
    ensures (p, s) in NamesBoosts(names, rules) <==>
              exists n, k :: n in names && k in rules && StandsIn(ToLower(n), k) && p in rules[k] && rules[k][p] == s
  {
    hide Contains, StandsIn, ToLower;
    forall n, k ensures Contains(ToLower(n), k) <==> StandsIn(ToLower(n), k) { ContainsIff(ToLower(n), k); }
    if n, k :| n in names && k in rules && StandsIn(ToLower(n), k) && p in rules[k] && rules[k][p] == s {
      assert (p, s) in NameBoosts(n, rules);
    }
  }

  /** The scores of a host without names, by its provider. */
  function NamelessScores(cloud: CloudProvider): Scores {
    match cloud
    case NoCloud => map[22 := 0.30, 80 := 0.40, 443 := 0.40, 25 := 0.15, 53 := 0.15]
    case OtherCloud => map[22 := 0.70, 80 := 0.75, 443 := 0.80, 8080 := 0.50, 25 := 0.15, 53 := 0.15]
    case Aws => map[22 := 0.70, 80 := 0.75, 443 := 0.80, 8080 := 0.50, 25 := 0.15, 53 := 0.15,
                    5432 := 0.40, 3306 := 0.40, 6379 := 0.35]
    case Gcp => map[22 := 0.70, 80 := 0.75, 443 := 0.80, 8080 := 0.50, 25 := 0.15, 53 := 0.15, 8443 := 0.45]
    case Azure => map[22 := 0.70, 80 := 0.75, 443 := 0.80, 8080 := 0.50, 25 := 0.15, 53 := 0.15,
                      3389 := 0.50, 1433 := 0.40]
  }

  lemma CommonBoosts(cloud: CloudProvider, b: Boost)
    requires !cloud.NoCloud?
    ensures b in CloudBoosts(cloud) <==>
              || b == (22, 0.70) || b == (443, 0.80) || b == (80, 0.75) || b == (8080, 0.50)
              || (cloud.Aws? && (b == (5432, 0.40) || b == (3306, 0.40) || b == (6379, 0.35)))
              || (cloud.Gcp? && b == (8443, 0.45))
              || (cloud.Azure? && (b == (3389, 0.50) || b == (1433, 0.40)))
  {}

  lemma NamelessProfile(cloud: CloudProvider)
    ensures IsProfile(NamelessScores(cloud), CloudBoosts(cloud))
  {
    var scores := NamelessScores(cloud);
    if !cloud.NoCloud? {
      hide CloudBoosts;
      forall b ensures b in CloudBoosts(cloud) ==> b.0 in scores && b.1 == scores[b.0] { CommonBoosts(cloud, b); }
      forall p | p in scores
        ensures (p, scores[p]) in CloudBoosts(cloud) || (p in DEFAULTS && scores[p] == DEFAULTS[p])
      {
        CommonBoosts(cloud, (p, scores[p]));
      }
    }
  }

  /** A host nobody knows a name of has the scores of its provider, or the baselines alone when the network
      is nobody's cloud or unknown. */
  lemma NamelessHosts(scores: Scores, info: Option<AsnInfo>, rules: Rules)
    requires IsProfile(scores, AllBoosts(None, info, None, rules))
    ensures scores == NamelessScores(if info.Some? then info.value.cloud else NoCloud)
  {
    var cloud := if info.Some? then info.value.cloud else NoCloud;
    assert NamesBoosts({}, rules) == {};
    assert Names(None) + Names(None) == {};
    assert AllBoosts(None, info, None, rules) == CloudBoosts(cloud);
    NamelessProfile(cloud);
    ProfileIsUnique(scores, NamelessScores(cloud), CloudBoosts(cloud));
  }
}
