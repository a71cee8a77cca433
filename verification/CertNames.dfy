/**
 * Domain names of a deployment and the labels from which the API gateway rebuilds them
 * (deployments/infra/config/domain/domain_config.go, lib/constructs/fronting/cert_manager.go and
 * api_gateway.go). A Go panic is an Err.
 */
module CertNames {
  import opened Wrappers
  import opened Sequences
  import opened Text
  import opened Ordering
  import opened DomainManager

  const MAIN_DOMAIN := "infra.truf.network"
  const STAGE_PROD := "prod"
  const STAGE_DEV := "dev"

  datatype Spec = Spec(stage: string, sub: string, devPrefix: string)

  datatype Panic = PrefixInProd | PrefixMissing | NotInZone

  /** The labels in order: the leaf subdomain if any, the prefix of a dev deployment, the main domain. */
  function FqdnParts(s: Spec): Result<seq<string>, Panic> {
    if s.stage == STAGE_PROD && s.devPrefix != "" then Err(PrefixInProd)
    else if s.stage == STAGE_DEV && s.devPrefix == "" then Err(PrefixMissing)
    else Ok((if s.sub != "" then [s.sub] else []) + (if s.stage == STAGE_DEV then [s.devPrefix] else []) + [MAIN_DOMAIN])
  }

  function Fqdn(s: Spec): Result<string, Panic> {
    match FqdnParts(s)
    case Err(p) => Err(p)
    case Ok(parts) => Ok(Join(parts, "."))
  }

  function Subdomain(s: Spec, leaf: string): Result<string, Panic> {
    match FqdnParts(s)
    case Err(p) => Err(p)
    case Ok(parts) => Ok(Join([leaf] + parts, "."))
  }

  /**
   * The name of a deployment: its subdomain if it has one, then the prefix of a dev deployment, then the main domain. A prod
   * deployment has no prefix, and a dev deployment must have one.
   */
  lemma FqdnIs(s: Spec)
    ensures var leaf := if s.sub != "" then s.sub + "." else "";
            && (s.stage == "prod" && s.devPrefix == "" ==> Fqdn(s) == Ok(leaf + "infra.truf.network"))
            && (s.stage == "dev" && s.devPrefix != "" ==> Fqdn(s) == Ok(leaf + s.devPrefix + ".infra.truf.network"))
            && (s.stage != "prod" && s.stage != "dev" ==> Fqdn(s) == Ok(leaf + "infra.truf.network"))
            && (Fqdn(s) == Err(PrefixInProd) <==> s.stage == "prod" && s.devPrefix != "")
            && (Fqdn(s) == Err(PrefixMissing) <==> s.stage == "dev" && s.devPrefix == "")
  {
    if FqdnParts(s).Ok? {
      PartsAre(s);
      var parts := FqdnParts(s).value;
      hide FqdnParts, Join;
      JoinFew("", "", MAIN_DOMAIN, ".");
      JoinFew("", s.sub, MAIN_DOMAIN, ".");
      JoinFew(s.sub, s.devPrefix, MAIN_DOMAIN, ".");
      Dots(s.sub, s.devPrefix);
    }
  }

  lemma PartsAre(s: Spec)
    requires FqdnParts(s).Ok?
    ensures FqdnParts(s).value == if s.stage == "dev" then (if s.sub != "" then [s.sub, s.devPrefix, MAIN_DOMAIN] else [s.devPrefix, MAIN_DOMAIN])
                                  else (if s.sub != "" then [s.sub, MAIN_DOMAIN] else [MAIN_DOMAIN])
  {
  }

  lemma Dots(a: string, b: string)
    ensures a + "." + (b + "." + MAIN_DOMAIN) == (a + ".") + b + ".infra.truf.network"
    ensures a + "." + MAIN_DOMAIN == (a + ".") + "infra.truf.network"
    ensures b + "." + MAIN_DOMAIN == "" + b + ".infra.truf.network" && MAIN_DOMAIN == "" + "infra.truf.network"
  {
    assert "." + MAIN_DOMAIN == ".infra.truf.network";
    Regroup(b, ".", MAIN_DOMAIN);
    Regroup(a + ".", b, "." + MAIN_DOMAIN);
    Empty(b);
    Empty(MAIN_DOMAIN);
  }

  lemma Regroup(a: string, b: string, c: string)
    ensures a + b + c == a + (b + c)
  {
  }

  lemma Empty(a: string)
    ensures "" + a == a
  {
  }

  lemma JoinFew(a: string, b: string, c: string, sep: string)
    ensures Join([c], sep) == c
    ensures Join([b, c], sep) == b + sep + c
    ensures Join([a, b, c], sep) == a + sep + (b + sep + c)
  {
    assert [b, c][1..] == [c] && [a, b, c][1..] == [b, c];
  }

  /** A subdomain is its label in front of the deployment's own name. */
  lemma SubdomainOfFqdn(s: Spec, leaf: string)
    ensures Subdomain(s, leaf).Ok? <==> Fqdn(s).Ok?
    ensures Fqdn(s).Ok? ==> Subdomain(s, leaf).value == leaf + "." + Fqdn(s).value
  {
    if FqdnParts(s).Ok? {
      var parts := [leaf] + FqdnParts(s).value;
      assert parts[1..] == FqdnParts(s).value && |parts| >= 2;
    }
  }

  /** The record names of the two services that share a certificate. */
  function GetSharedCertProps(zoneName: string, primaryFqdn: string, secondaryFqdn: string): Result<(string, string), Panic> {
    var primaryLabel, secondaryLabel := TrimSuffix(primaryFqdn, "." + zoneName), TrimSuffix(secondaryFqdn, "." + zoneName);
    if primaryLabel == primaryFqdn || secondaryLabel == secondaryFqdn then Err(NotInZone)
    else Ok((primaryLabel, secondaryLabel))
  }

  /** The name under which the API gateway is attached. */
  function AttachedName(recordName: string, zoneName: string): string {
    recordName + "." + zoneName
  }

  /**
   * The labels exist if and only if both names lie under the zone, and then attaching them rebuilds both names.
   */
  lemma LabelsRebuildNames(zoneName: string, primaryFqdn: string, secondaryFqdn: string)
    ensures GetSharedCertProps(zoneName, primaryFqdn, secondaryFqdn).Ok? <==>
            HasSuffix(primaryFqdn, "." + zoneName) && HasSuffix(secondaryFqdn, "." + zoneName)
    ensures match GetSharedCertProps(zoneName, primaryFqdn, secondaryFqdn)
            case Err(_) => true
            case Ok(labels) => AttachedName(labels.0, zoneName) == primaryFqdn && AttachedName(labels.1, zoneName) == secondaryFqdn
  {
    SuffixIsCut(primaryFqdn, zoneName);
    SuffixIsCut(secondaryFqdn, zoneName);
  }

  lemma SuffixIsCut(fqdn: string, zoneName: string)
    ensures TrimSuffix(fqdn, "." + zoneName) != fqdn <==> HasSuffix(fqdn, "." + zoneName)
    ensures HasSuffix(fqdn, "." + zoneName) ==> AttachedName(TrimSuffix(fqdn, "." + zoneName), zoneName) == fqdn
  {
    if HasSuffix(fqdn, "." + zoneName) {
      var recordName := TrimSuffix(fqdn, "." + zoneName);
      assert recordName + ("." + zoneName) == recordName + "." + zoneName;
      assert |recordName| < |fqdn|;
    }
  }

  lemma {:induction false} JoinEnds(parts: seq<string>, sep: string)
    requires |parts| >= 2
    ensures HasSuffix(Join(parts, sep), sep + parts[|parts| - 1])
  {
    var rest := Join(parts[1..], sep);
    if |parts| > 2 {
      JoinEnds(parts[1..], sep);
      SuffixOfSuffix(parts[0] + sep, rest, sep + parts[|parts| - 1]);
    } else {
      assert Join(parts, sep) == parts[0] + (sep + parts[1]);
    }
  }

  lemma SuffixOfSuffix(a: string, b: string, suffix: string)
    requires HasSuffix(b, suffix)
    ensures HasSuffix(a + b, suffix)
  {
    assert (a + b)[|a + b| - |suffix|..] == b[|b| - |suffix|..];
  }

  lemma SubdomainIsInZone(s: Spec, leaf: string)
    requires FqdnParts(s).Ok?
    ensures Subdomain(s, leaf).Ok? && HasSuffix(Subdomain(s, leaf).value, "." + MAIN_DOMAIN)
  {
    JoinEnds([leaf] + FqdnParts(s).value, ".");
  }

  /**
   * For a deployment whose names exist and whose zone is the main domain: the two services get labels that
   * rebuild their names; both names are on the certificate that the manager describes, whatever else is
   * configured; and both validate in the primary zone.
   */
  lemma SharedCertificateCoversNames(s: Spec, first: string, second: string, zoneId: Option<string>, zone: Option<Zone>,
                                     altName: string, config: Option<StackConfig>)
    requires FqdnParts(s).Ok?
    ensures Subdomain(s, first).Ok? && Subdomain(s, second).Ok?
    ensures var primary, secondary := Subdomain(s, first).value, Subdomain(s, second).value;
            var labels := GetSharedCertProps(MAIN_DOMAIN, primary, secondary);
            && labels.Ok?
            && AttachedName(labels.value.0, MAIN_DOMAIN) == primary && AttachedName(labels.value.1, MAIN_DOMAIN) == secondary
            && var explicit := [Some(primary), Some(secondary)];
               var primaryZone := Zone(Some(MAIN_DOMAIN), zoneId);
               var r := Required(altName, Some(primaryZone), zone, SanSet(config, explicit), explicit);
               && r.Ok? && r.value.domainName == primary && primary in r.value.sans && secondary in r.value.sans
               && match r.value.validation
                  case FromDns(z) => z == primaryZone
                  case FromDnsMultiZone(zones) =>
                    primary in zones && secondary in zones && zones[primary] == primaryZone && zones[secondary] == primaryZone
  {
    SubdomainIsInZone(s, first);
    SubdomainIsInZone(s, second);
    var primary, secondary := Subdomain(s, first).value, Subdomain(s, second).value;
    LabelsRebuildNames(MAIN_DOMAIN, primary, secondary);
    var explicit := [Some(primary), Some(secondary)];
    var primaryZone := Zone(Some(MAIN_DOMAIN), zoneId);
    var sans := SanSet(config, explicit);
    assert primary != "" && secondary != "" by {
      assert |primary| >= |"." + MAIN_DOMAIN| && |secondary| >= |"." + MAIN_DOMAIN|;
    }
    assert explicit[0] == Some(primary) && explicit[1] == Some(secondary) && primary in sans && secondary in sans;
    hide SanSet, StrictTotal, Subdomain, GetSharedCertProps, AttachedName;
    MainDomainIsNormal();
    RequirementsAreSound(altName, Some(primaryZone), zone, config, explicit);
    MultiZoneCoversAllNames(altName, primaryZone, zone, sans);
  }

  lemma MainDomainIsNormal()
    ensures Normal(MAIN_DOMAIN) == MAIN_DOMAIN
  {
    assert MAIN_DOMAIN[17] == 'k';
  }
}
