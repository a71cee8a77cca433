/**
 * The alternative domain manager (deployments/infra/lib/constructs/alternativedomainmanager/manager.go):
 * collecting the names of a shared certificate, choosing how they are validated, and creating A records for
 * the configured names. Zones are values, and a zone lookup is answered by a function passed to the call.
 */
module DomainManager {
  import opened Wrappers
  import opened Sequences
  import opened Text
  import opened Ordering

  datatype Zone = Zone(name: Option<string>, id: Option<string>)

  datatype Mapping = Mapping(targetId: string, requiresTlsSan: Option<bool>)

  datatype StackConfig = StackConfig(hostedZoneDomain: string, alternatives: map<string, Mapping>)

  datatype Validation = FromDns(zone: Zone) | FromDnsMultiZone(zones: map<string, Zone>)

  datatype Requirements = Requirements(domainName: string, sans: seq<string>, validation: Validation)

  datatype CertError = NoNames | NoPrimaryZone

  // ---- The list of subject alternative names ------------------------------------------------------------

  function NonEmpty(fqdns: seq<Option<string>>): set<string> {
    set f | f in fqdns && f.Some? && f.value != "" :: f.value
  }

  class SanListBuilder {
    var sans: set<string>

    constructor ()
      ensures sans == {}
    {
      sans := {};
    }

    method Add(fqdns: seq<Option<string>>)
      modifies this
      ensures sans == old(sans) + NonEmpty(fqdns)
    {
      for i := 0 to |fqdns|
        invariant sans == old(sans) + NonEmpty(fqdns[..i])
      {
        assert fqdns[..i + 1] == fqdns[..i] + [fqdns[i]];
        if fqdns[i].Some? && fqdns[i].value != "" {
          sans := sans + {fqdns[i].value};
        }
      }
      assert fqdns[..|fqdns|] == fqdns;
    }

    method List() returns (list: seq<string>)
      ensures IsListing(StringLess, list, sans)
    {
      StringLessStrictTotal();
      list := SortedKeys(StringLess, sans);
    }
  }

  // ---- What a call is meant to return --------------------------------------------------------------------

  predicate RequiresSan(m: Mapping) {
    m.requiresTlsSan.None? || m.requiresTlsSan.value
  }

  function ConfiguredSans(config: Option<StackConfig>): set<string> {
    if config.None? then {}
    else set f | f in config.value.alternatives && RequiresSan(config.value.alternatives[f])
  }

  /** The names that belong on the certificate. */
  function SanSet(config: Option<StackConfig>, explicit: seq<Option<string>>): set<string> {
    (ConfiguredSans(config) - {""}) + NonEmpty(explicit)
  }

  /** The override, or else the configured name, or else "". */
  function AltZoneName(override: Option<string>, config: Option<StackConfig>): string {
    if override.Some? && override.value != "" then override.value
    else if config.Some? then config.value.hostedZoneDomain
    else ""
  }

  function Normal(name: string): string {
    TrimSuffix(name, ".")
  }

  predicate NeedsMultiZone(altName: string, primaryZone: Option<Zone>) {
    altName != "" && primaryZone.Some? && primaryZone.value.name.Some? && Normal(altName) != Normal(primaryZone.value.name.value)
  }

  /** lookupAlternativeZone: a resolved zone is kept; a lookup counts only if it yields a zone with an id. */
  function Resolve(zone: Option<Zone>, lookup: string -> Option<Zone>, name: string): Option<Zone> {
    if zone.Some? then zone
    else
      var found := lookup(name);
      if found.Some? && found.value.id.Some? then found else None
  }

  /** The resolved zone after a call of GetCertificateRequirements. */
  function ZoneAfterCert(zone: Option<Zone>, altName: string, primaryZone: Option<Zone>, sans: set<string>,
                         lookup: string -> Option<Zone>): Option<Zone> {
    if sans == {} || !NeedsMultiZone(altName, primaryZone) then zone
    else Resolve(zone, lookup, Normal(altName))
  }

  predicate Under(fqdn: string, zoneName: string) {
    fqdn == Normal(zoneName) || HasSuffix(fqdn, "." + Normal(zoneName))
  }

  function ZoneFor(fqdn: string, primary: Zone, alt: Zone): Zone
    requires primary.name.Some? && alt.name.Some?
  {
    if Under(fqdn, primary.name.value) then primary
    else if Under(fqdn, alt.name.value) then alt
    else primary
  }

  function ValidationFor(altName: string, primary: Zone, zone: Option<Zone>, sans: set<string>): Validation {
    if NeedsMultiZone(altName, Some(primary)) && zone.Some? && zone.value.name.Some? && zone.value.name.value != "" &&
       primary.name.value != ""
    then FromDnsMultiZone(map f | f in sans :: ZoneFor(f, primary, zone.value))
    else FromDns(primary)
  }

  ghost function NameOrder(): (less: (string, string) -> bool)
    ensures StrictTotal(less) && less == StringLess
  {
    StringLessStrictTotal();
    StringLess
  }

  /** The answer of GetCertificateRequirements; zone is the resolved zone after the call. */
  ghost function Required(altName: string, primaryZone: Option<Zone>, zone: Option<Zone>, sans: set<string>,
                          explicit: seq<Option<string>>): Result<Requirements, CertError>
  {
    var list := Listing(NameOrder(), sans);
    if sans == {} then Err(NoNames)
    else if primaryZone.None? then Err(NoPrimaryZone)
    else
      var name := if explicit != [] && explicit[0].Some? && explicit[0].value != "" then explicit[0].value
                  else (FirstOfListing(sans); list[0]);
      Ok(Requirements(name, list, ValidationFor(altName, primaryZone.value, zone, sans)))
  }

  lemma FirstOfListing(sans: set<string>)
    ensures sans != {} ==> Listing(NameOrder(), sans) != []
  {
    if sans != {} {
      var s :| s in sans;
      assert s in Listing(NameOrder(), sans);
    }
  }

  // ---- Targets and records -----------------------------------------------------------------------------------

  datatype RecordTarget = ApiDomain(fqdn: string) | Other(description: string)

  datatype Api = Api(hasDefaultStage: bool)

  datatype DnsTarget =
    | Fronting(api: Option<Api>, recordTarget: Option<RecordTarget>)
    | Node(recordTarget: Option<RecordTarget>)
    | Unknown(recordTarget: Option<RecordTarget>)

  datatype ARecord = ARecord(name: string, zone: Zone, target: RecordTarget)

  datatype SkipReason = TargetMissing | NilApi | NilCertificate | NilRecordTarget

  datatype Outcome = Create(target: RecordTarget) | Skip(reason: SkipReason) | NoDefaultStage

  datatype ProvisionError = NoZoneName | ZoneUnresolved | MissingStage

  const TARGET_GATEWAY := "Gateway"
  const TARGET_INDEXER := "Indexer"

  function FromRecordTarget(t: Option<RecordTarget>): Outcome {
    if t.None? then Skip(NilRecordTarget) else Create(t.value)
  }

  /** What happens to one configured name. */
  function OutcomeOf(targets: map<string, DnsTarget>, hasCertificate: bool, fqdn: string, m: Mapping): Outcome {
    if m.targetId !in targets then Skip(TargetMissing)
    else
      var target := targets[m.targetId];
      if target.Fronting? && (m.targetId == TARGET_GATEWAY || m.targetId == TARGET_INDEXER) then
        if target.api.None? then Skip(NilApi)
        else if !hasCertificate then Skip(NilCertificate)
        else if !target.api.value.hasDefaultStage then NoDefaultStage
        else Create(ApiDomain(fqdn))
      else FromRecordTarget(target.recordTarget)
  }

  /** The name has no record. */
  predicate NoRecordOf(records: seq<ARecord>, fqdn: string) {
    forall r :: r in records ==> r.name != fqdn
  }

  /**
   * What the registered target asks for: an API behind Gateway or Indexer gets a record to the name's own API domain,
   * given a certificate; any other target gets a record to its record target. Whatever is missing, no record is made.
   */
  ghost predicate HasItsRecord(records: seq<ARecord>, targets: map<string, DnsTarget>, hasCertificate: bool, fqdn: string,
                               id: string, zone: Zone)
  {
    if id !in targets then NoRecordOf(records, fqdn)
    else
      var g := targets[id];
      if g.Fronting? && (id == "Gateway" || id == "Indexer") then
        if g.api.Some? && g.api.value.hasDefaultStage && hasCertificate then ARecord(fqdn, zone, ApiDomain(fqdn)) in records
        else NoRecordOf(records, fqdn)
      else if g.recordTarget.Some? then ARecord(fqdn, zone, g.recordTarget.value) in records
      else NoRecordOf(records, fqdn)
  }

  /** The records of the names done so far. */
  ghost predicate AreRecords(records: seq<ARecord>, targets: map<string, DnsTarget>, hasCertificate: bool,
                             alternatives: map<string, Mapping>, done: set<string>, zone: Zone)
    requires done <= alternatives.Keys
  {
    && (forall i, j :: 0 <= i < j < |records| ==> records[i].name != records[j].name)
    && (forall r :: r in records ==> r.name in done && r.zone == zone)
    && (forall f :: f in done ==> HasItsRecord(records, targets, hasCertificate, f, alternatives[f].targetId, zone))
  }

  /** With a certificate, some configured name leads to an API behind Gateway or Indexer without a default stage. */
  ghost predicate StageMissing(targets: map<string, DnsTarget>, hasCertificate: bool, alternatives: map<string, Mapping>) {
    hasCertificate && exists f :: f in alternatives && LacksStage(targets, alternatives[f].targetId)
  }

  predicate LacksStage(targets: map<string, DnsTarget>, id: string) {
    && id in targets && targets[id].Fronting? && (id == "Gateway" || id == "Indexer")
    && targets[id].api.Some? && !targets[id].api.value.hasDefaultStage
  }

  // ---- The manager --------------------------------------------------------------------------------------------

  class AlternativeDomainManager {
    const override: Option<string>
    const stackConfig: Option<StackConfig>
    var sanBuilder: SanListBuilder
    var dnsTargets: map<string, DnsTarget>
    var resolvedAltZone: Option<Zone>
    var records: seq<ARecord>

    constructor (override: Option<string>, stackConfig: Option<StackConfig>)
      ensures this.override == override && this.stackConfig == stackConfig
      ensures dnsTargets == map[] && resolvedAltZone == None && records == [] && fresh(sanBuilder)
    {
      this.override, this.stackConfig := override, stackConfig;
      dnsTargets, resolvedAltZone, records := map[], None, [];
      sanBuilder := new SanListBuilder();
    }

    method RegisterTarget(id: string, target: Option<DnsTarget>)
      modifies this`dnsTargets
      ensures dnsTargets == Registered(old(dnsTargets), id, target)
    {
      if id == "" || target.None? {
        return;
      }
      dnsTargets := dnsTargets[id := target.value];
    }

    method GetAlternativeHostedZoneDomain() returns (name: string)
      ensures name == AltZoneName(override, stackConfig)
    {
      if override.Some? && override.value != "" {
        return override.value;
      }
      if stackConfig.Some? && stackConfig.value.hostedZoneDomain != "" {
        return stackConfig.value.hostedZoneDomain;
      }
      name := "";
    }

    method CollectConfiguredSans()
      modifies sanBuilder
      ensures sanBuilder.sans == old(sanBuilder.sans) + (ConfiguredSans(stackConfig) - {""})
    {
      if stackConfig.None? {
        return;
      }
      var rest := stackConfig.value.alternatives.Keys;
      while rest != {}
        invariant rest <= stackConfig.value.alternatives.Keys
        invariant sanBuilder.sans == old(sanBuilder.sans) + (ConfiguredSans(stackConfig) - rest - {""})
        decreases rest
      {
        var altFqdn :| altFqdn in rest;
        if RequiresSan(stackConfig.value.alternatives[altFqdn]) {
          sanBuilder.Add([Some(altFqdn)]);
        }
        rest := rest - {altFqdn};
      }
    }

    method LookupAlternativeZone(domainName: string, lookup: string -> Option<Zone>)
      modifies this`resolvedAltZone
      ensures resolvedAltZone == Resolve(old(resolvedAltZone), lookup, domainName)
    {
      if resolvedAltZone.Some? {
        return;
      }
      resolvedAltZone := lookup(domainName);
      if resolvedAltZone.None? || resolvedAltZone.value.id.None? {
        resolvedAltZone := None;
      }
    }

    method GetCertificateRequirements(primaryZone: Option<Zone>, explicit: seq<Option<string>>, lookup: string -> Option<Zone>)
      returns (r: Result<Requirements, CertError>)
      modifies this`sanBuilder, this`resolvedAltZone
      ensures fresh(sanBuilder) && sanBuilder.sans == SanSet(stackConfig, explicit)
      ensures resolvedAltZone == ZoneAfterCert(old(resolvedAltZone), AltZoneName(override, stackConfig), primaryZone,
                                               SanSet(stackConfig, explicit), lookup)
      ensures r == Required(AltZoneName(override, stackConfig), primaryZone, resolvedAltZone,
                            SanSet(stackConfig, explicit), explicit)
    {
      hide Listing, StrictTotal, Normal, HasSuffix;
      sanBuilder := new SanListBuilder();
      CollectConfiguredSans();
      sanBuilder.Add(explicit);
      var sans := sanBuilder.List();
      ghost var names := SanSet(stackConfig, explicit);
      ListingUnique(NameOrder(), sans, Listing(NameOrder(), names), names);
      FirstOfListing(names);
      ListedNames(sans, names);

      var name: string;
      if |explicit| > 0 && explicit[0].Some? && explicit[0].value != "" {
        name := explicit[0].value;
        assert explicit[0] in explicit && name in names;
      } else if |sans| > 0 && sans[0] != "" {
        name := sans[0];
        assert name in sans;
      } else {
        return Err(NoNames);
      }

      hide ValidationFor, ZoneAfterCert;
      r := ChooseValidation(primaryZone, name, sans, lookup);
      assert (set x | x in sans) == names;
    }

    /** The second half of GetCertificateRequirements: whether and how to use the alternative zone. */
    method ChooseValidation(primaryZone: Option<Zone>, name: string, sans: seq<string>, lookup: string -> Option<Zone>)
      returns (r: Result<Requirements, CertError>)
      requires name in sans
      modifies this`resolvedAltZone
      ensures var names := set x | x in sans;
              && resolvedAltZone == ZoneAfterCert(old(resolvedAltZone), AltZoneName(override, stackConfig), primaryZone, names, lookup)
              && r == if primaryZone.None? then Err(NoPrimaryZone)
                      else Ok(Requirements(name, sans, ValidationFor(AltZoneName(override, stackConfig), primaryZone.value,
                                                                     resolvedAltZone, names)))
    {
      hide Normal, HasSuffix, Under;
      ghost var names := set x | x in sans;
      assert name in names;
      var altZoneName := GetAlternativeHostedZoneDomain();
      if !NeedsMultiZone(altZoneName, primaryZone) {
        if primaryZone.None? {
          return Err(NoPrimaryZone);
        }
        return Ok(Requirements(name, sans, FromDns(primaryZone.value)));
      }

      var primary := primaryZone.value;
      var normalized := Normal(altZoneName);
      if resolvedAltZone.None? || (resolvedAltZone.value.name.Some? && Normal(resolvedAltZone.value.name.value) != normalized) {
        LookupAlternativeZone(normalized, lookup);
      }
      if resolvedAltZone.None? || resolvedAltZone.value.name.None? || resolvedAltZone.value.name.value == "" {
        return Ok(Requirements(name, sans, FromDns(primary)));
      }
      var domains := MapToZones({name} + (set x | x in sans), primary, resolvedAltZone.value);
      assert {name} + (set x | x in sans) == names;
      if domains == map[] {
        r := Ok(Requirements(name, sans, FromDns(primary)));
      } else {
        r := Ok(Requirements(name, sans, FromDnsMultiZone(domains)));
      }
    }

    /** The loop that assigns every name of the certificate to a zone; an unnamed primary zone maps none. */
    method MapToZones(fqdns: set<string>, primary: Zone, alt: Zone) returns (domains: map<string, Zone>)
      requires primary.name.Some? && alt.name.Some?
      ensures domains == if primary.name.value == "" then map[] else map f | f in fqdns :: ZoneFor(f, primary, alt)
      ensures fqdns != {} ==> (domains == map[] <==> primary.name.value == "")
    {
      domains := map[];
      var rest := fqdns;
      while rest != {}
        invariant rest <= fqdns
        invariant primary.name.value == "" ==> domains == map[]
        invariant primary.name.value != "" ==> domains == map f | f in fqdns - rest :: ZoneFor(f, primary, alt)
        decreases rest
      {
        var fqdn :| fqdn in rest;
        rest := rest - {fqdn};
        if primary.name.value == "" {
          continue;
        }
        var mappedToZone := false;
        if Under(fqdn, primary.name.value) {
          domains := domains[fqdn := primary];
          mappedToZone := true;
        }
        if !mappedToZone {
          if Under(fqdn, alt.name.value) {
            domains := domains[fqdn := alt];
            mappedToZone := true;
          }
        }
        if !mappedToZone {
          domains := domains[fqdn := primary];
        }
      }
      if f :| f in fqdns && primary.name.value != "" {
        assert f in domains;
      }
    }

    /**
     * Creates the A records. On success every configured name has exactly one record or was skipped for a
     * reason, and the counter is the number of records; a missing default stage ends the call with an error,
     * with some of the records made.
     */
    method ProvisionAlternativeDomains(hasCertificate: bool, lookup: string -> Option<Zone>) returns (r: Result<nat, ProvisionError>)
      modifies this`resolvedAltZone, this`records
      ensures resolvedAltZone == ZoneAfterProvision(old(resolvedAltZone), override, stackConfig, lookup)
      ensures old(records) <= records
      ensures stackConfig.None? || stackConfig.value.alternatives == map[] ==> r == Ok(0) && records == old(records)
      ensures stackConfig.Some? && stackConfig.value.alternatives != map[] ==>
                var name := AltZoneName(override, stackConfig);
                if name == "" then r == Err(NoZoneName) && records == old(records)
                else if resolvedAltZone.None? then r == Err(ZoneUnresolved) && records == old(records)
                else r == (if StageMissing(dnsTargets, hasCertificate, stackConfig.value.alternatives)
                           then Err(MissingStage) else Ok(|records| - |old(records)|))
      ensures r.Ok? && stackConfig.Some? && stackConfig.value.alternatives != map[] ==>
                AreRecords(records[|old(records)|..], dnsTargets, hasCertificate, stackConfig.value.alternatives,
                           stackConfig.value.alternatives.Keys, resolvedAltZone.value)
      ensures r == Err(MissingStage) ==>
                exists done :: done <= stackConfig.value.alternatives.Keys &&
                  AreRecords(records[|old(records)|..], dnsTargets, hasCertificate, stackConfig.value.alternatives,
                             done, resolvedAltZone.value)
    {
      if stackConfig.None? || |stackConfig.value.alternatives| == 0 {
        return Ok(0);
      }
      var altZoneName := GetAlternativeHostedZoneDomain();
      if altZoneName == "" {
        return Err(NoZoneName);
      }
      LookupAlternativeZone(altZoneName, lookup);
      if resolvedAltZone.None? {
        return Err(ZoneUnresolved);
      }
      r := CreateRecords(hasCertificate, stackConfig.value.alternatives, resolvedAltZone.value);
    }

    /** The body of the record loop up to the record itself: which target the record gets, if any. */
    method Decide(hasCertificate: bool, altFqdn: string, mapping: Mapping) returns (outcome: Outcome)
      ensures outcome == OutcomeOf(dnsTargets, hasCertificate, altFqdn, mapping)
    {
      var targetId := mapping.targetId;
      if targetId !in dnsTargets {
        return Skip(TargetMissing);
      }
      var registered := dnsTargets[targetId];
      var recordTarget: Option<RecordTarget>;
      if registered.Fronting? {
        if targetId == TARGET_GATEWAY || targetId == TARGET_INDEXER {
          if registered.api.None? {
            return Skip(NilApi);
          }
          if !hasCertificate {
            return Skip(NilCertificate);
          }
          if !registered.api.value.hasDefaultStage {
            return NoDefaultStage;
          }
          recordTarget := Some(ApiDomain(altFqdn));
        } else {
          recordTarget := registered.recordTarget;
        }
      } else if registered.Node? {
        recordTarget := registered.recordTarget;
      } else {
        recordTarget := registered.recordTarget;
      }
      if recordTarget.None? {
        return Skip(NilRecordTarget);
      }
      outcome := Create(recordTarget.value);
    }

    method CreateRecords(hasCertificate: bool, alternatives: map<string, Mapping>, zone: Zone) returns (r: Result<nat, ProvisionError>)
      modifies this`records
      ensures old(records) <= records
      ensures r == if StageMissing(dnsTargets, hasCertificate, alternatives) then Err(MissingStage) else Ok(|records| - |old(records)|)
      ensures r.Ok? ==> AreRecords(records[|old(records)|..], dnsTargets, hasCertificate, alternatives, alternatives.Keys, zone)
      ensures r.Err? ==>
                exists done :: done <= alternatives.Keys &&
                  AreRecords(records[|old(records)|..], dnsTargets, hasCertificate, alternatives, done, zone)
    {
      hide OutcomeOf, AreRecords, HasItsRecord, LacksStage;
      NoRecords(dnsTargets, hasCertificate, alternatives, zone);
      var numRecordsCreated := 0;
      var rest := alternatives.Keys;
      ghost var start := |records|;
      ghost var done: set<string> := {};
      assert records[start..] == [];
      while rest != {}
        invariant alternatives.Keys == rest + done && rest !! done
        invariant start == |old(records)| && old(records) <= records && numRecordsCreated == |records| - start
        invariant AreRecords(records[start..], dnsTargets, hasCertificate, alternatives, done, zone)
        invariant forall f :: f in done ==> !(hasCertificate && LacksStage(dnsTargets, alternatives[f].targetId))
        decreases rest
      {
        var altFqdn :| altFqdn in rest;
        rest := rest - {altFqdn};
        var outcome := Decide(hasCertificate, altFqdn, alternatives[altFqdn]);
        OutcomeIs([], dnsTargets, hasCertificate, altFqdn, alternatives[altFqdn], zone);
        if outcome.NoDefaultStage? {
          return Err(MissingStage);
        }
        ghost var before := records[start..];
        if outcome.Create? {
          records := records + [ARecord(altFqdn, zone, outcome.target)];
          numRecordsCreated := numRecordsCreated + 1;
          assert records[start..] == before + [ARecord(altFqdn, zone, outcome.target)];
        }
        OneMoreName(before, dnsTargets, hasCertificate, alternatives, done, zone, altFqdn);
        done := done + {altFqdn};
      }
      assert done == alternatives.Keys;
      r := Ok(numRecordsCreated);
    }
  }

  lemma NoRecords(targets: map<string, DnsTarget>, hasCertificate: bool, alternatives: map<string, Mapping>, zone: Zone)
    ensures AreRecords([], targets, hasCertificate, alternatives, {}, zone)
  {
  }

  lemma OutcomeIs(records: seq<ARecord>, targets: map<string, DnsTarget>, hasCertificate: bool, fqdn: string, m: Mapping, zone: Zone)
    ensures var outcome := OutcomeOf(targets, hasCertificate, fqdn, m);
            && (outcome.NoDefaultStage? <==> hasCertificate && LacksStage(targets, m.targetId))
            && (!outcome.NoDefaultStage? ==>
                  (HasItsRecord(records, targets, hasCertificate, fqdn, m.targetId, zone) <==>
                   if outcome.Create? then ARecord(fqdn, zone, outcome.target) in records else NoRecordOf(records, fqdn)))
  {
    hide NoRecordOf;
  }

  lemma OtherRecord(records: seq<ARecord>, targets: map<string, DnsTarget>, hasCertificate: bool, fqdn: string, id: string,
                    zone: Zone, more: seq<ARecord>)
    requires HasItsRecord(records, targets, hasCertificate, fqdn, id, zone) && forall r :: r in more ==> r.name != fqdn
    ensures HasItsRecord(records + more, targets, hasCertificate, fqdn, id, zone)
  {
  }

  lemma OneMoreName(records: seq<ARecord>, targets: map<string, DnsTarget>, hasCertificate: bool,
                    alternatives: map<string, Mapping>, done: set<string>, zone: Zone, fqdn: string)
    requires done <= alternatives.Keys && fqdn in alternatives && fqdn !in done
    requires AreRecords(records, targets, hasCertificate, alternatives, done, zone)
    requires !OutcomeOf(targets, hasCertificate, fqdn, alternatives[fqdn]).NoDefaultStage?
    ensures var outcome := OutcomeOf(targets, hasCertificate, fqdn, alternatives[fqdn]);
            AreRecords(if outcome.Create? then records + [ARecord(fqdn, zone, outcome.target)] else records,
                       targets, hasCertificate, alternatives, done + {fqdn}, zone)
  {
    hide OutcomeOf, HasItsRecord;
    var outcome := OutcomeOf(targets, hasCertificate, fqdn, alternatives[fqdn]);
    var more := if outcome.Create? then [ARecord(fqdn, zone, outcome.target)] else [];
    var after := records + more;
    assert forall i :: 0 <= i < |records| ==> records[i] in records;
    OutcomeIs(after, targets, hasCertificate, fqdn, alternatives[fqdn], zone);
    forall f | f in done ensures HasItsRecord(after, targets, hasCertificate, f, alternatives[f].targetId, zone) {
      OtherRecord(records, targets, hasCertificate, f, alternatives[f].targetId, zone, more);
    }
    assert after == if outcome.Create? then records + [ARecord(fqdn, zone, outcome.target)] else records;
  }

  lemma ListedNames(sans: seq<string>, names: set<string>)
    requires IsListing(StringLess, sans, names) && "" !in names
    ensures sans == [] ==> names == {}
    ensures sans != [] ==> sans[0] != "" && sans[0] in names
  {
    if sans != [] {
      assert sans[0] in sans;
    }
  }

  // ---- What the certificate requirements are worth ------------------------------------------------------------

  /** The name is asked for: as an explicit one, or by the configuration unless it says that it needs no TLS. */
  predicate AskedFor(config: Option<StackConfig>, explicit: seq<Option<string>>, f: string) {
    && f != ""
    && (Some(f) in explicit ||
        (config.Some? && f in config.value.alternatives && config.value.alternatives[f].requiresTlsSan != Some(false)))
  }

  lemma AskedForIff(config: Option<StackConfig>, explicit: seq<Option<string>>)
    ensures forall f :: f in SanSet(config, explicit) <==> AskedFor(config, explicit, f)
    ensures SanSet(config, explicit) != {} <==> exists f :: AskedFor(config, explicit, f)
  {
    var sans := SanSet(config, explicit);
    forall f ensures f in sans <==> AskedFor(config, explicit, f) {
      if Some(f) in explicit && f != "" {
        assert Some(f).value in NonEmpty(explicit);
      }
    }
    assert sans != {} ==> exists f :: f in sans;
  }

  /**
   * A successful answer names a certificate whose list is strictly sorted and holds exactly the names asked for. The
   * certificate is named after the first explicit name if there is one, or else after the first of the list. There is an
   * answer unless there is no name or no primary zone.
   */
  lemma {:induction false} RequirementsAreSound(altName: string, primaryZone: Option<Zone>, zone: Option<Zone>,
                                                       config: Option<StackConfig>, explicit: seq<Option<string>>)
    ensures var r := Required(altName, primaryZone, zone, SanSet(config, explicit), explicit);
            && (r.Ok? <==> (exists f :: AskedFor(config, explicit, f)) && primaryZone.Some?)
            && (r == Err(NoNames) <==> !exists f :: AskedFor(config, explicit, f))
            && (r.Ok? ==>
                  && (forall i, j :: 0 <= i < j < |r.value.sans| ==> StringLess(r.value.sans[i], r.value.sans[j]))
                  && (forall f :: f in r.value.sans <==> AskedFor(config, explicit, f))
                  && r.value.domainName in r.value.sans
                  && r.value.domainName == if explicit != [] && explicit[0].Some? && explicit[0].value != "" then explicit[0].value
                                           else r.value.sans[0])
  {
    hide StrictTotal;
    var sans := SanSet(config, explicit);
    FirstOfListing(sans);
    var list := Listing(NameOrder(), sans);
    AskedForIff(config, explicit);
    if sans != {} && explicit != [] && explicit[0].Some? && explicit[0].value != "" {
      assert explicit[0] in explicit && explicit[0].value in sans;
    }
  }

  /** A name lies under a zone exactly when it is the zone's name, or that name behind some prefix and a dot. */
  lemma UnderIff(f: string, zoneName: string, n: string)
    requires zoneName == n + "." || (zoneName == n && (n == "" || n[|n| - 1] != '.'))
    ensures Under(f, zoneName) <==> f == n || exists prefix :: f == prefix + "." + n
  {
    assert Normal(zoneName) == n by {
      if zoneName == n + "." {
        assert HasSuffix(zoneName, ".");
      }
    }
    if HasSuffix(f, "." + n) {
      assert f == f[..|f| - |"." + n|] + "." + n;
    }
    if prefix :| f == prefix + "." + n {
      assert f == prefix + ("." + n);
    }
  }

  lemma NormalIs(x: string)
    ensures EndsInDot(x) ==> x == Normal(x) + "."
    ensures !EndsInDot(x) ==> x == Normal(x)
  {
    assert HasSuffix(x, ".") <==> EndsInDot(x) by {
      if x != "" {
        assert x[|x| - 1..] == [x[|x| - 1]];
      }
    }
  }

  /** Two zone names are the same exactly when they differ at most by one final dot. */
  lemma SameZoneIff(x: string, y: string)
    ensures Normal(x) == Normal(y) <==> SameZone(x, y)
  {
    NormalIs(x);
    NormalIs(y);
    hide Normal;
    DotCut(x, Normal(x));
    DotCut(y, Normal(y));
    assert (y + ".")[..|y|] == y && (x + ".")[..|x|] == x;
  }

  lemma DotCut(x: string, n: string)
    ensures x == n + "." ==> EndsInDot(x) && x[..|x| - 1] == n
  {
  }

  predicate SameZone(x: string, y: string) {
    x == y || (x == y + "." && !EndsInDot(y)) || (y == x + "." && !EndsInDot(x))
  }

  predicate EndsInDot(x: string) {
    x != "" && x[|x| - 1] == '.'
  }

  /**
   * With multi-zone validation the mapping covers exactly the names of the certificate. A name under the primary
   * zone goes there, otherwise a name under the alternative zone goes to that one, and the rest to the primary.
   */
  lemma MultiZoneCoversAllNames(altName: string, primary: Zone, zone: Option<Zone>, sans: set<string>)
    ensures var v := ValidationFor(altName, primary, zone, sans);
            match v
            case FromDns(z) => z == primary
            case FromDnsMultiZone(zones) =>
              && zones.Keys == sans
              && zone.Some? && zone.value.name.Some? && primary.name.Some?
              && forall f :: f in sans ==>
                   && (zones[f] == primary || zones[f] == zone.value)
                   && (Under(f, primary.name.value) ==> zones[f] == primary)
                   && (!Under(f, primary.name.value) && Under(f, zone.value.name.value) ==> zones[f] == zone.value)
                   && (!Under(f, primary.name.value) && !Under(f, zone.value.name.value) ==> zones[f] == primary)
    ensures ValidationFor(altName, primary, zone, sans).FromDnsMultiZone? <==>
              NeedsMultiZone(altName, Some(primary)) && primary.name.value != "" &&
              zone.Some? && zone.value.name.Some? && zone.value.name.value != ""
  {
    hide Under, Normal;
  }

  lemma SuffixOfSuffix(f: string, middle: string, suffix: string)
    requires HasSuffix(f, middle) && HasSuffix(middle, suffix)
    ensures HasSuffix(f, suffix)
  {
    assert f[|f| - |suffix|..] == middle[|middle| - |suffix|..];
  }

  /**
   * Some name can be mapped to the alternative zone if and only if that zone does not itself lie under the primary
   * zone: a nested alternative zone is looked up, but never used.
   */
  lemma NestedZoneIsNeverUsed(primary: Zone, alt: Zone)
    requires primary.name.Some? && alt.name.Some? && primary != alt
    ensures (exists f :: ZoneFor(f, primary, alt) == alt) <==> !Under(Normal(alt.name.value), primary.name.value)
  {
    hide Normal, HasSuffix;
    var a, p := Normal(alt.name.value), Normal(primary.name.value);
    if Under(a, primary.name.value) {
      forall f ensures ZoneFor(f, primary, alt) == primary {
        if HasSuffix(f, "." + a) && HasSuffix(a, "." + p) {
          SuffixAfterDot(f, a, p);
        }
      }
    } else {
      assert ZoneFor(a, primary, alt) == alt;
    }
  }

  lemma SuffixAfterDot(f: string, a: string, p: string)
    requires HasSuffix(f, "." + a) && HasSuffix(a, "." + p)
    ensures HasSuffix(f, "." + p)
  {
    assert ("." + a)[|"." + a| - |"." + p|..] == a[|a| - |"." + p|..];
    SuffixOfSuffix(f, "." + a, "." + p);
  }

  /** Name and list depend only on the configuration and the explicit names, not on zones or earlier calls. */
  lemma NamesAreStable(altName: string, primaryZone: Option<Zone>, zone: Option<Zone>, altName': string,
                       primaryZone': Option<Zone>, zone': Option<Zone>, sans: set<string>, explicit: seq<Option<string>>)
    ensures var r, r' := Required(altName, primaryZone, zone, sans, explicit), Required(altName', primaryZone', zone', sans, explicit);
            r.Ok? && r'.Ok? ==> r.value.domainName == r'.value.domainName && r.value.sans == r'.value.sans
  {
    hide Listing, StrictTotal, ValidationFor;
    FirstOfListing(sans);
  }

  // ---- Runs of calls ------------------------------------------------------------------------------------------

  function Registered(targets: map<string, DnsTarget>, id: string, target: Option<DnsTarget>): map<string, DnsTarget> {
    if id == "" || target.None? then targets else targets[id := target.value]
  }

  function ZoneAfterProvision(zone: Option<Zone>, override: Option<string>, config: Option<StackConfig>,
                              lookup: string -> Option<Zone>): Option<Zone> {
    if config.None? || config.value.alternatives == map[] || AltZoneName(override, config) == "" then zone
    else Resolve(zone, lookup, AltZoneName(override, config))
  }

  datatype Call =
    | Register(id: string, target: Option<DnsTarget>)
    | Certificate(primaryZone: Option<Zone>, explicit: seq<Option<string>>, lookup: string -> Option<Zone>)
    | Provision(lookup: string -> Option<Zone>)

  /** The manager's registry and resolved zone; the methods of the class make exactly these steps. */
  datatype Core = Core(targets: map<string, DnsTarget>, zone: Option<Zone>)

  function Step(override: Option<string>, config: Option<StackConfig>, s: Core, call: Call): Core {
    match call
    case Register(id, target) => s.(targets := Registered(s.targets, id, target))
    case Certificate(primaryZone, explicit, lookup) =>
      s.(zone := ZoneAfterCert(s.zone, AltZoneName(override, config), primaryZone, SanSet(config, explicit), lookup))
    case Provision(lookup) => s.(zone := ZoneAfterProvision(s.zone, override, config, lookup))
  }

  function Run(override: Option<string>, config: Option<StackConfig>, calls: seq<Call>): Core {
    if calls == [] then Core(map[], None)
    else Step(override, config, Run(override, config, calls[..|calls| - 1]), calls[|calls| - 1])
  }

  /** The call changes the resolved zone, that is, its lookup succeeds. */
  predicate Resolves(override: Option<string>, config: Option<StackConfig>, calls: seq<Call>, k: nat)
    requires k < |calls|
  {
    Run(override, config, calls[..k]).zone != Run(override, config, calls[..k + 1]).zone
  }

  /** Once resolved, the zone stays. */
  lemma {:induction false} ZoneIsWrittenOnce(override: Option<string>, config: Option<StackConfig>, calls: seq<Call>, k: nat)
    requires k <= |calls| && Run(override, config, calls[..k]).zone.Some?
    ensures Run(override, config, calls).zone == Run(override, config, calls[..k]).zone
    decreases |calls|
  {
    if k == |calls| {
      assert calls[..k] == calls;
    } else {
      assert calls[..|calls| - 1][..k] == calls[..k];
      ZoneIsWrittenOnce(override, config, calls[..|calls| - 1], k);
    }
  }

  /** The override if it is not empty, or else the configured name, or else nothing. */
  predicate IsZoneName(override: Option<string>, config: Option<StackConfig>, n: string) {
    if override.Some? && override.value != "" then n == override.value
    else if config.Some? then n == config.value.hostedZoneDomain
    else n == ""
  }

  /** What a call looks up under the zone name n, if it has to: provisioning asks for n, a certificate for n without a final dot. */
  ghost predicate LooksUp(config: Option<StackConfig>, call: Call, n: string) {
    match call
    case Register(_, _) => false
    case Provision(_) => n != "" && config.Some? && exists f :: f in config.value.alternatives
    case Certificate(primaryZone, explicit, _) =>
      && n != "" && primaryZone.Some? && primaryZone.value.name.Some? && !SameZone(n, primaryZone.value.name.value)
      && exists f :: AskedFor(config, explicit, f)
  }

  /** The zone that the lookup answers, if it has an id. */
  predicate Answers(call: Call, n: string, zone: Option<Zone>) {
    match call
    case Register(_, _) => false
    case Provision(lookup) => zone == if lookup(n).Some? && lookup(n).value.id.Some? then lookup(n) else None
    case Certificate(_, _, lookup) =>
      var m := if EndsInDot(n) then n[..|n| - 1] else n;
      zone == if lookup(m).Some? && lookup(m).value.id.Some? then lookup(m) else None
  }

  /** While no zone is resolved, exactly the calls that look one up can resolve it, to what the lookup answers. */
  lemma CallResolves(override: Option<string>, config: Option<StackConfig>, s: Core, call: Call, n: string)
    requires IsZoneName(override, config, n) && s.zone.None?
    ensures var t := Step(override, config, s, call);
            if LooksUp(config, call, n) then Answers(call, n, t.zone) else t.zone.None?
  {
    match call
    case Register(_, _) =>
    case Provision(_) =>
    case Certificate(primaryZone, explicit, lookup) =>
      CertificateResolves(config, primaryZone, explicit, lookup, n);
  }

  lemma CertificateResolves(config: Option<StackConfig>, primaryZone: Option<Zone>, explicit: seq<Option<string>>,
                            lookup: string -> Option<Zone>, n: string)
    ensures var call := Certificate(primaryZone, explicit, lookup);
            var zone := ZoneAfterCert(None, n, primaryZone, SanSet(config, explicit), lookup);
            if LooksUp(config, call, n) then Answers(call, n, zone) else zone.None?
  {
    hide SanSet, AskedFor;
    AskedForIff(config, explicit);
    NormalIs(n);
    if primaryZone.Some? && primaryZone.value.name.Some? {
      SameZoneIff(n, primaryZone.value.name.value);
    }
    DotCut(n, Normal(n));
    hide Normal, SameZone;
  }

  /** At most one call of a run resolves the zone. */
  lemma OneLookupSucceeds(override: Option<string>, config: Option<StackConfig>, calls: seq<Call>, j: nat, k: nat)
    requires j < |calls| && k < |calls| && Resolves(override, config, calls, j) && Resolves(override, config, calls, k)
    ensures j == k
  {
    if j < k {
      ResolvesAtMostOnce(override, config, calls, j, k);
    } else if k < j {
      ResolvesAtMostOnce(override, config, calls, k, j);
    }
  }

  /** A call that changes the zone leaves it resolved. */
  lemma ResolvesToZone(override: Option<string>, config: Option<StackConfig>, calls: seq<Call>, k: nat)
    requires k < |calls| && Resolves(override, config, calls, k)
    ensures Run(override, config, calls[..k + 1]).zone.Some?
  {
    assert calls[..k + 1][..k] == calls[..k];
    if Run(override, config, calls[..k]).zone.Some? {
      ZoneIsWrittenOnce(override, config, calls[..k + 1], k);
    }
  }

  lemma ResolvesAtMostOnce(override: Option<string>, config: Option<StackConfig>, calls: seq<Call>, first: nat, second: nat)
    requires first < second < |calls| && Resolves(override, config, calls, first)
    ensures !Resolves(override, config, calls, second)
  {
    ResolvesToZone(override, config, calls, first);
    hide Run;
    assert calls[..second][..first + 1] == calls[..first + 1] == calls[..second + 1][..first + 1];
    ZoneIsWrittenOnce(override, config, calls[..second], first + 1);
    ZoneIsWrittenOnce(override, config, calls[..second + 1], first + 1);
  }

  predicate Registers(call: Call, id: string) {
    call.Register? && call.id == id && id != "" && call.target.Some?
  }

  /** An id is in the registry if and only if some call registered a target for it. */
  lemma {:induction false} RegisteredIff(override: Option<string>, config: Option<StackConfig>, calls: seq<Call>, id: string)
    ensures id in Run(override, config, calls).targets <==> exists k :: 0 <= k < |calls| && Registers(calls[k], id)
  {
    if calls != [] {
      var n := |calls| - 1;
      RegisteredIff(override, config, calls[..n], id);
      assert forall k :: 0 <= k < n ==> calls[..n][k] == calls[k];
    }
  }

  /** The registry holds the target that was registered last under the id. */
  lemma {:induction false} LastRegistrationWins(override: Option<string>, config: Option<StackConfig>, calls: seq<Call>,
                                                id: string, k: nat)
    requires k < |calls| && Registers(calls[k], id)
    requires forall j :: k < j < |calls| ==> !Registers(calls[j], id)
    ensures id in Run(override, config, calls).targets && Run(override, config, calls).targets[id] == calls[k].target.value
    decreases |calls|
  {
    var n := |calls| - 1;
    if k < n {
      LastRegistrationWins(override, config, calls[..n], id, k);
    }
  }
}
