/**
 DeleteVolume's optional removal of a volume's objects (pkg/csi/controller_delete.go): which
 PersistentVolume is meant, whether its StorageClass asks for deletion, and what is then deleted.
 */
module VolumeDelete {
  import opened Options
  import opened GoStrings
  import opened S3Location
  import opened S3Cleanup

  type Fields = map<string, string>

  datatype Claim = Claim(namespace: string, name: string)

  datatype PersistentVolume =
    PersistentVolume(name: string, handle: Option<string>, className: string, claim: Option<Claim>)

  /** The cluster objects that deletion reads. A claim may leave its class name unset. */
  datatype Objects = Objects(
    volumes: seq<PersistentVolume>,
    claims: map<Claim, Option<string>>,
    classes: map<string, Fields>,
    configMaps: map<string, Fields>,
    secrets: map<string, Fields>)

  /** Which of the reads succeed. */
  datatype Answers = Answers(
    getVolume: bool,
    listVolumes: bool,
    getClaim: bool,
    getClass: bool,
    getConfigMap: bool,
    getSecret: bool)

  /** A missing field reads as the empty text. */
  function Field(fields: Fields, name: string): (r: string)
    ensures name in fields ==> r == fields[name]
    ensures name !in fields ==> r == ""
  {
    if name in fields then fields[name] else ""
  }

  // ---- Which PersistentVolume ----

  predicate Carries(pv: PersistentVolume, id: string) { pv.handle == Some(id) }

  /** The PersistentVolume of that name, as a read by name finds it. */
  function ByName(volumes: seq<PersistentVolume>, name: string): (r: Option<PersistentVolume>)
    ensures r.Some? ==> r.value in volumes && r.value.name == name
    ensures r.None? ==> forall pv :: pv in volumes ==> pv.name != name
  {
    if volumes == [] then None
    else if volumes[0].name == name then Some(volumes[0])
    else ByName(volumes[1..], name)
  }

  /** r is what searching the whole list for the handle answers. */
  ghost predicate IsSearched(volumes: seq<PersistentVolume>, id: string, r: Option<PersistentVolume>) {
    if r.None? then forall pv :: pv in volumes ==> !Carries(pv, id)
    else exists i :: 0 <= i < |volumes| && volumes[i] == r.value && Carries(volumes[i], id)
                     && forall j :: 0 <= j < i ==> !Carries(volumes[j], id)
  }

  ghost predicate UniqueHandles(volumes: seq<PersistentVolume>) {
    forall a, b :: a in volumes && b in volumes && a.handle.Some? && a.handle == b.handle ==> a == b
  }

  /** The lookup: by name if that read succeeds, else the first volume in the list with the handle. */
  method FindPersistentVolume(objects: Objects, answers: Answers, id: string) returns (r: Option<PersistentVolume>)
    ensures r == Found(objects, answers, id)
    ensures answers.getVolume && ByName(objects.volumes, id).Some? ==> r == ByName(objects.volumes, id)
    ensures !(answers.getVolume && ByName(objects.volumes, id).Some?) && !answers.listVolumes ==> r == None
    ensures !(answers.getVolume && ByName(objects.volumes, id).Some?) && answers.listVolumes ==>
              IsSearched(objects.volumes, id, r)
  {
    var named := ByName(objects.volumes, id);
    if answers.getVolume && named.Some? {
      return named;
    }
    if !answers.listVolumes {
      return None;
    }
    var i := 0;
    while i < |objects.volumes|
      invariant 0 <= i <= |objects.volumes|
      invariant forall j :: 0 <= j < i ==> !Carries(objects.volumes[j], id)
      invariant Search(objects.volumes, id) == Search(objects.volumes[i..], id)
    {
      assert objects.volumes[i..][1..] == objects.volumes[i + 1..];
      if objects.volumes[i].handle.Some? && objects.volumes[i].handle.value == id {
        return Some(objects.volumes[i]);
      }
      i := i + 1;
    }
    return None;
  }

  function Search(volumes: seq<PersistentVolume>, id: string): Option<PersistentVolume> {
    if volumes == [] then None
    else if Carries(volumes[0], id) then Some(volumes[0])
    else Search(volumes[1..], id)
  }

  function Found(objects: Objects, answers: Answers, id: string): Option<PersistentVolume> {
    if answers.getVolume && ByName(objects.volumes, id).Some? then ByName(objects.volumes, id)
    else if answers.listVolumes then Search(objects.volumes, id)
    else None
  }

  lemma {:induction false} SearchIsSearched(volumes: seq<PersistentVolume>, id: string)
    ensures IsSearched(volumes, id, Search(volumes, id))
  {
    if volumes != [] && !Carries(volumes[0], id) {
      SearchIsSearched(volumes[1..], id);
      var r := Search(volumes[1..], id);
      if r.Some? {
        var i :| 0 <= i < |volumes[1..]| && volumes[1..][i] == r.value && Carries(volumes[1..][i], id)
                 && forall j :: 0 <= j < i ==> !Carries(volumes[1..][j], id);
        forall j | 0 <= j < i + 1 ensures !Carries(volumes[j], id) {
          assert j > 0 ==> volumes[j] == volumes[1..][j - 1];
        }
        assert volumes[i + 1] == r.value;
      }
    }
  }

  /** With unique handles, and a listing that succeeds, the lookup answers what the search of the list
      alone would, whether or not the read by name succeeds, exactly when the volume that bears the ID
      as its name, if there is one, also carries it as its handle. */
  lemma FastLookupIsSearchIffNamedCarries(objects: Objects, answers: Answers, id: string)
    requires UniqueHandles(objects.volumes) && answers.listVolumes
    ensures (forall get: bool :: Found(objects, answers.(getVolume := get), id) == Search(objects.volumes, id)) <==>
            (forall pv :: ByName(objects.volumes, id) == Some(pv) ==> Carries(pv, id))
  {
    var named, searched := ByName(objects.volumes, id), Search(objects.volumes, id);
    SearchIsSearched(objects.volumes, id);
    assert Found(objects, answers.(getVolume := true), id) == if named.Some? then named else searched;
    assert Found(objects, answers.(getVolume := false), id) == searched;
    if named.Some? && Carries(named.value, id) {
      assert searched == named;
    }
  }

  // ---- Whether to delete ----

  predicate IsTrue(s: string) { ToLower(TrimSpace(s)) == "true" }

  predicate IsEither(c: char, lower: char, upper: char) { c == lower || c == upper }

  /** s consists of a, four letters that spell "true" in whatever case, and b. */
  predicate SpellsTrue(s: string, a: string, b: string) {
    && |s| == |a| + 4 + |b| && a <= s && s[|a| + 4..] == b
    && IsEither(s[|a|], 't', 'T') && IsEither(s[|a| + 1], 'r', 'R')
    && IsEither(s[|a| + 2], 'u', 'U') && IsEither(s[|a| + 3], 'e', 'E')
  }

  predicate AllSpaces(s: string) { forall c :: c in s ==> IsSpace(c) }

  /** Exactly the texts that spell "true", in whatever case, between spaces. */
  lemma IsTrueIff(s: string)
    ensures IsTrue(s) <==> exists a, b :: SpellsTrue(s, a, b) && AllSpaces(a) && AllSpaces(b)
  {
    if IsTrue(s) {
      var a, b := TrueIsSpelled(s);
    }
    if a, b :| SpellsTrue(s, a, b) && AllSpaces(a) && AllSpaces(b) {
      SpelledIsTrue(s, a, b);
    }
  }

  lemma TrueIsSpelled(s: string) returns (a: string, b: string)
    requires IsTrue(s)
    ensures SpellsTrue(s, a, b) && AllSpaces(a) && AllSpaces(b)
  {
    a, b := TrimParts(s, IsSpace);
    var t := TrimSpace(s);
    LowersToTrue(t);
    assert s[..|a|] == a && s[|a|] == t[0] && s[|a| + 1] == t[1] && s[|a| + 2] == t[2] && s[|a| + 3] == t[3];
    assert s[|a| + 4..] == b;
  }

  lemma SpelledIsTrue(s: string, a: string, b: string)
    requires SpellsTrue(s, a, b) && AllSpaces(a) && AllSpaces(b)
    ensures IsTrue(s)
  {
    var t := s[|a|..|a| + 4];
    assert s == a + t + b;
    LowersToTrue(t);
    CommonSpaces();
    TrimOf(a, t, b, IsSpace);
  }

  lemma LowersToTrue(t: string)
    ensures ToLower(t) == "true" <==>
            && |t| == 4 && IsEither(t[0], 't', 'T') && IsEither(t[1], 'r', 'R')
            && IsEither(t[2], 'u', 'U') && IsEither(t[3], 'e', 'E')
  {
    if |t| == 4 {
      var r := ToLower(t);
      assert r == [r[0], r[1], r[2], r[3]];
    }
  }

  /** Neither no text at all nor "false" is taken for "true". */
  lemma FalseIsNotTrue()
    ensures IsTrue("true") && !IsTrue("") && !IsTrue("false")
  {
    TrimOf("", "true", "", IsSpace);
    TrimOf("", "false", "", IsSpace);
    assert "" + "true" + "" == "true" && "" + "false" + "" == "false";
    LowersToTrue("true");
    LowersToTrue("false");
    LowersToTrue("");
  }

  /** The class of a volume: its own, or failing that its claim's. */
  function ClassOf(objects: Objects, answers: Answers, pv: PersistentVolume): string {
    if TrimSpace(pv.className) != "" then TrimSpace(pv.className)
    else if pv.claim.Some? && answers.getClaim && pv.claim.value in objects.claims then
      match objects.claims[pv.claim.value] case Some(name) => TrimSpace(name) case None => ""
    else ""
  }

  /** A class of its own comes first; the claim's counts if the volume has none and the claim can
      be read; otherwise there is none. */
  lemma ClassIsOwnOrClaimed(objects: Objects, answers: Answers, pv: PersistentVolume)
    ensures TrimSpace(pv.className) != "" ==> ClassOf(objects, answers, pv) == TrimSpace(pv.className)
    ensures forall claim, name ::
              && TrimSpace(pv.className) == "" && pv.claim == Some(claim) && answers.getClaim
              && claim in objects.claims && objects.claims[claim] == Some(name) ==>
              ClassOf(objects, answers, pv) == TrimSpace(name)
    ensures TrimSpace(pv.className) == "" && (pv.claim == None || !answers.getClaim) ==>
              ClassOf(objects, answers, pv) == ""
    ensures forall claim ::
              && TrimSpace(pv.className) == "" && pv.claim == Some(claim)
              && (claim !in objects.claims || objects.claims[claim] == None) ==>
              ClassOf(objects, answers, pv) == ""
  {
  }

  /** The volume's StorageClass can be resolved and asks for deletion. */
  ghost predicate Consents(objects: Objects, answers: Answers, id: string) {
    var pv := Found(objects, answers, id);
    && pv.Some?
    && var name := ClassOf(objects, answers, pv.value);
       && name != "" && answers.getClass && name in objects.classes
       && IsTrue(Field(objects.classes[name], "deleteDataOnPVCDelete"))
  }

  /** The name of the config map that the consenting class points to. */
  ghost function ConfigName(objects: Objects, answers: Answers, id: string): string
    requires Consents(objects, answers, id)
  {
    TrimSpace(Field(objects.classes[ClassOf(objects, answers, Found(objects, answers, id).value)], "configMapName"))
  }

  /** The configuration of the consenting class can be read. */
  ghost predicate Configured(objects: Objects, answers: Answers, id: string) {
    Consents(objects, answers, id) && ConfigName(objects, answers, id) != "" && answers.getConfigMap
    && ConfigName(objects, answers, id) in objects.configMaps
  }

  ghost function Config(objects: Objects, answers: Answers, id: string): Fields
    requires Configured(objects, answers, id)
  {
    objects.configMaps[ConfigName(objects, answers, id)]
  }

  /** The first of two fields that is not blank. */
  function FirstOf(fields: Fields, a: string, b: string): (r: string)
    ensures TrimSpace(Field(fields, a)) != "" ==> r == TrimSpace(Field(fields, a))
    ensures TrimSpace(Field(fields, a)) == "" ==> r == TrimSpace(Field(fields, b))
  {
    if TrimSpace(Field(fields, a)) != "" then TrimSpace(Field(fields, a)) else TrimSpace(Field(fields, b))
  }

  predicate HasCredentials(objects: Objects, answers: Answers, config: Fields) {
    var name := TrimSpace(Field(config, "awsCredentialsSecretName"));
    && name != "" && answers.getSecret && name in objects.secrets
    && FirstOf(objects.secrets[name], "AWS_ACCESS_KEY_ID", "username") != ""
    && FirstOf(objects.secrets[name], "AWS_SECRET_ACCESS_KEY", "password") != ""
  }

  /** Everything that deletion needs is there. */
  ghost predicate Ready(objects: Objects, answers: Answers, id: string) {
    && Configured(objects, answers, id)
    && DeleteTarget(Field(Config(objects, answers, id), "storageURL"), id).Located?
    && HasCredentials(objects, answers, Config(objects, answers, id))
  }

  /** Without a volume, without a class or without the class's own word there is no consent. */
  lemma ConsentIff(objects: Objects, answers: Answers, id: string)
    ensures Consents(objects, answers, id) <==>
            exists pv, name ::
              && Found(objects, answers, id) == Some(pv) && ClassOf(objects, answers, pv) == name
              && name != "" && answers.getClass && name in objects.classes
              && "deleteDataOnPVCDelete" in objects.classes[name]
              && IsTrue(objects.classes[name]["deleteDataOnPVCDelete"])
  {
    FalseIsNotTrue();
    if Consents(objects, answers, id) {
      var pv := Found(objects, answers, id).value;
      assert ClassOf(objects, answers, pv) in objects.classes;
    }
  }

  lemma ConsentNeedsWord(objects: Objects, answers: Answers, id: string)
    ensures Consents(objects, answers, id) ==>
              exists name :: name in objects.classes && "deleteDataOnPVCDelete" in objects.classes[name]
                             && IsTrue(objects.classes[name]["deleteDataOnPVCDelete"])
    ensures (forall name :: name in objects.classes ==>
               "deleteDataOnPVCDelete" !in objects.classes[name]
               || objects.classes[name]["deleteDataOnPVCDelete"] == "false") ==> !Consents(objects, answers, id)
  {
    ConsentIff(objects, answers, id);
    FalseIsNotTrue();
  }

  /** Everything that deletion needs of a consenting class, field by field. */
  lemma ReadyIff(objects: Objects, answers: Answers, id: string, sc: Fields)
    requires Consents(objects, answers, id)
    requires sc == objects.classes[ClassOf(objects, answers, Found(objects, answers, id).value)]
    ensures Ready(objects, answers, id) <==>
            var m := TrimSpace(Field(sc, "configMapName"));
            && m != "" && answers.getConfigMap && m in objects.configMaps
            && ParseS3Location(Field(objects.configMaps[m], "storageURL")).Located?
            && HasCredentials(objects, answers, objects.configMaps[m])
  {
  }

  lemma CredentialsIff(objects: Objects, answers: Answers, cfg: Fields)
    ensures HasCredentials(objects, answers, cfg) <==>
            var n := TrimSpace(Field(cfg, "awsCredentialsSecretName"));
            && n != "" && answers.getSecret && n in objects.secrets
            && (|| TrimSpace(Field(objects.secrets[n], "AWS_ACCESS_KEY_ID")) != ""
                || TrimSpace(Field(objects.secrets[n], "username")) != "")
            && (|| TrimSpace(Field(objects.secrets[n], "AWS_SECRET_ACCESS_KEY")) != ""
                || TrimSpace(Field(objects.secrets[n], "password")) != "")
  {
  }

  datatype Decision = Skip | Refuse | Delete(cfg: DeleteConfig, loc: Location)

  /** Reads the StorageClass that decides about the volume; None when there is none to be found. */
  method ResolveClass(objects: Objects, answers: Answers, id: string) returns (class_: Option<Fields>)
    ensures class_.Some? && IsTrue(Field(class_.value, "deleteDataOnPVCDelete")) <==> Consents(objects, answers, id)
    ensures Consents(objects, answers, id) ==>
              TrimSpace(Field(class_.value, "configMapName")) == ConfigName(objects, answers, id)
  {
    var pv := FindPersistentVolume(objects, answers, id);
    if pv.None? {
      return None;
    }
    var name := TrimSpace(pv.value.className);
    if name == "" && pv.value.claim.Some? {
      if answers.getClaim && pv.value.claim.value in objects.claims {
        var fromClaim := objects.claims[pv.value.claim.value];
        if fromClaim.Some? {
          name := TrimSpace(fromClaim.value);
        }
      }
    }
    if name == "" {
      return None;
    }
    if !answers.getClass || name !in objects.classes {
      return None;
    }
    return Some(objects.classes[name]);
  }

  /** The credentials that the configuration names; None when they are missing or incomplete. */
  method ReadCredentials(objects: Objects, answers: Answers, config: Fields) returns (keys: Option<(string, string)>)
    ensures keys.Some? <==> HasCredentials(objects, answers, config)
    ensures keys.Some? ==>
              var creds := objects.secrets[TrimSpace(Field(config, "awsCredentialsSecretName"))];
              && keys.value.0 != "" && keys.value.1 != ""
              && keys.value.0 == FirstOf(creds, "AWS_ACCESS_KEY_ID", "username")
              && keys.value.1 == FirstOf(creds, "AWS_SECRET_ACCESS_KEY", "password")
  {
    var name := TrimSpace(Field(config, "awsCredentialsSecretName"));
    if name == "" {
      return None;
    }
    if !answers.getSecret || name !in objects.secrets {
      return None;
    }
    var creds := objects.secrets[name];
    var accessKey := TrimSpace(Field(creds, "AWS_ACCESS_KEY_ID"));
    if accessKey == "" {
      accessKey := TrimSpace(Field(creds, "username"));
    }
    var secretKey := TrimSpace(Field(creds, "AWS_SECRET_ACCESS_KEY"));
    if secretKey == "" {
      secretKey := TrimSpace(Field(creds, "password"));
    }
    if accessKey == "" || secretKey == "" {
      return None;
    }
    return Some((accessKey, secretKey));
  }

  /** The cfg that deletion works with, field by field. */
  ghost predicate IsConfigured(objects: Objects, config: Fields, cfg: DeleteConfig) {
    var name := TrimSpace(Field(config, "awsCredentialsSecretName"));
    && cfg.endpoint == TrimSpace(Field(config, "awsEndpoint"))
    && cfg.region == TrimSpace(Field(config, "awsDefaultRegion"))
    && cfg.allowHTTP == IsTrue(Field(config, "awsAllowHTTP"))
    && name in objects.secrets
    && cfg.accessKeyID == FirstOf(objects.secrets[name], "AWS_ACCESS_KEY_ID", "username")
    && cfg.secretKey == FirstOf(objects.secrets[name], "AWS_SECRET_ACCESS_KEY", "password")
  }

  /** The chain of reads before the deletion: nothing is done without consent, and consent without a
      complete configuration is an error. */
  method Decide(objects: Objects, answers: Answers, id: string) returns (d: Decision)
    ensures d == Skip <==> !Consents(objects, answers, id)
    ensures d != Skip ==>
              exists name :: name in objects.classes && "deleteDataOnPVCDelete" in objects.classes[name]
                             && IsTrue(objects.classes[name]["deleteDataOnPVCDelete"])
    ensures (forall name :: name in objects.classes ==>
               "deleteDataOnPVCDelete" !in objects.classes[name]
               || objects.classes[name]["deleteDataOnPVCDelete"] == "false") ==> d == Skip
    ensures d.Delete? <==> Ready(objects, answers, id)
    ensures d.Delete? ==>
              var config := Config(objects, answers, id);
              var name := TrimSpace(Field(config, "awsCredentialsSecretName"));
              && DeleteTarget(Field(config, "storageURL"), id) == Located(d.loc)
              && d.cfg.endpoint == TrimSpace(Field(config, "awsEndpoint"))
              && d.cfg.region == TrimSpace(Field(config, "awsDefaultRegion"))
              && d.cfg.allowHTTP == IsTrue(Field(config, "awsAllowHTTP"))
              && name in objects.secrets
              && d.cfg.accessKeyID == FirstOf(objects.secrets[name], "AWS_ACCESS_KEY_ID", "username")
              && d.cfg.secretKey == FirstOf(objects.secrets[name], "AWS_SECRET_ACCESS_KEY", "password")
  {
    ConsentNeedsWord(objects, answers, id);
    var class_ := ResolveClass(objects, answers, id);
    if class_.None? || !IsTrue(Field(class_.value, "deleteDataOnPVCDelete")) {
      return Skip;
    }
    var config := ReadConfig(objects, answers, class_.value);
    if config.None? {
      return Refuse;
    }
    d := DecideConfigured(objects, answers, config.value, id);
  }

  /** The configuration that a StorageClass names; None when it names none or it cannot be read. */
  method ReadConfig(objects: Objects, answers: Answers, class_: Fields) returns (config: Option<Fields>)
    ensures var name := TrimSpace(Field(class_, "configMapName"));
            && (config.Some? <==> name != "" && answers.getConfigMap && name in objects.configMaps)
            && (config.Some? ==> config.value == objects.configMaps[name])
  {
    var configMapName := TrimSpace(Field(class_, "configMapName"));
    if configMapName == "" {
      return None;
    }
    if !answers.getConfigMap || configMapName !in objects.configMaps {
      return None;
    }
    return Some(objects.configMaps[configMapName]);
  }

  /** Where and with what to delete, from the configuration. */
  method DecideConfigured(objects: Objects, answers: Answers, config: Fields, id: string) returns (d: Decision)
    ensures d != Skip
    ensures d.Delete? <==>
              DeleteTarget(Field(config, "storageURL"), id).Located? && HasCredentials(objects, answers, config)
    ensures d.Delete? ==>
              && DeleteTarget(Field(config, "storageURL"), id) == Located(d.loc)
              && IsConfigured(objects, config, d.cfg)
  {
    var parsed := ParseS3Location(Field(config, "storageURL"));
    if !parsed.Located? {
      return Refuse;
    }
    var loc := parsed.loc;
    loc := loc.(prefix := JoinS3Prefix(loc.prefix, id));
    var keys := ReadCredentials(objects, answers, config);
    if keys.None? {
      return Refuse;
    }
    var allowHTTP := IsTrue(Field(config, "awsAllowHTTP"));
    var endpoint := TrimSpace(Field(config, "awsEndpoint"));
    var region := TrimSpace(Field(config, "awsDefaultRegion"));
    return Delete(DeleteConfig(endpoint, region, allowHTTP, keys.value.0, keys.value.1), loc);
  }

  // ---- Deleting ----

  /** What a successful deletion of the volume leaves of the store. */
  ghost predicate Cleaned(was: Buckets, now: Buckets, loc: Location, locked: set<string>) {
    loc.bucket in was && now == was[loc.bucket := Survivors(was[loc.bucket], TrimSpace(loc.prefix), locked)]
  }

  /** Success means that the class did not consent and nothing happened, or that the prefix has been
      swept; whatever happens, only keys under the volume's own prefix can be gone. */
  method DeleteVolumeDataIfEnabled(objects: Objects, answers: Answers, id: string, store: ObjectStore,
                                   world: StoreWorld)
      returns (failed: bool)
    requires store.Valid()
    modifies store
    ensures store.Valid()
    ensures !Consents(objects, answers, id) ==> !failed && store.buckets == old(store.buckets)
    ensures Consents(objects, answers, id) && !Ready(objects, answers, id) ==>
              failed && store.buckets == old(store.buckets)
    ensures Ready(objects, answers, id) ==>
              var loc := DeleteTarget(Field(Config(objects, answers, id), "storageURL"), id).loc;
              && (!failed ==> Cleaned(old(store.buckets), store.buckets, loc, world.locked))
              && OnlyUnder(old(store.buckets), store.buckets, loc.bucket, TrimSpace(loc.prefix))
    ensures Ready(objects, answers, id) ==>
              var config := Config(objects, answers, id);
              var endpoint := TrimSpace(Field(config, "awsEndpoint"));
              var loc := DeleteTarget(Field(config, "storageURL"), id).loc;
              (&& endpoint != "" && (IsTrue(Field(config, "awsAllowHTTP")) || !("http://" <= endpoint))
               && TrimSpace(loc.prefix) != "" && loc.bucket in old(store.buckets) && !world.clientFails
               && (forall i :: 0 <= i < |world.turns| ==> !world.turns[i].listFails && !world.turns[i].deleteFails)) ==>
                !failed
  {
    var d := Decide(objects, answers, id);
    match d
    case Skip => failed := false;
    case Refuse => failed := true;
    case Delete(cfg, loc) =>
      LocatedHasBucket(Field(Config(objects, answers, id), "storageURL"));
      var r := DeleteS3Prefix(store, cfg, loc, world);
      failed := r == Failed;
  }

  lemma LocatedHasBucket(url: string)
    requires ParseS3Location(url).Located?
    ensures ParseS3Location(url).loc.bucket != ""
  {
  }

  /** A clean sweep, key by key. */
  lemma CleanedIff(was: Buckets, now: Buckets, loc: Location, locked: set<string>)
    requires Cleaned(was, now, loc, locked)
    ensures now.Keys == was.Keys && loc.bucket in was
    ensures forall b, k :: b in was ==>
              (k in now[b] <==> k in was[b] && (b != loc.bucket || !(TrimSpace(loc.prefix) <= k) || k in locked))
  {
  }

  /** A volume of a configuration without a storage URL is never deleted, although its pod writes. */
  lemma UnsetUrlIsNeverReady(objects: Objects, answers: Answers, id: string)
    requires Configured(objects, answers, id) && Field(Config(objects, answers, id), "storageURL") == ""
    ensures !Ready(objects, answers, id)
  {
    EmptyUrlIsRefused();
  }

  lemma CleanPrefixIsTrimmed(path: string, id: string)
    requires CleanPath(path) && IsSegment(id)
    ensures TrimSpace(JoinS3Prefix(TrimPrefix(path, "/"), id)) == JoinS3Prefix(TrimPrefix(path, "/"), id)
  {
    var p := TrimPrefix(path, "/");
    PathAgreement(path, id);
    if path == "" {
      SegmentUntrimmed(id);
    } else {
      JoinIsConcatenation(p, id);
      assert (p + "/" + id)[0] == p[0];
      assert TrimSpace(p) == p;
    }
  }

  /** A successful deletion under a plain, clean URL: nothing is left where the volume's pod writes but
      locked keys, and a key of another volume of that URL survives exactly when the deleted ID does
      not begin the other's ID. */
  lemma DeletionIsExact(url: string, id: string, other: string, rest: string, keys: seq<string>, locked: set<string>)
    requires '%' !in url && '?' !in url && '#' !in url && ParseS3Location(url).Located? && CleanPath(ParseUrl(url).path)
    requires IsSegment(id) && UrlSafe(id) && IsSegment(other) && UrlSafe(other)
    ensures WriteTarget(url, id) == DeleteTarget(url, id) && WriteTarget(url, id).Located?
    ensures WriteTarget(url, other).Located? && WriteTarget(url, other).loc.bucket == WriteTarget(url, id).loc.bucket
    ensures var mine, key := WriteTarget(url, id).loc.prefix, WriteTarget(url, other).loc.prefix + "/" + rest;
            var left := Survivors(keys, TrimSpace(mine), locked);
            && (forall k :: k in left && mine <= k ==> k in locked)
            && (key in keys ==> (key in left <==> !(id <= other) || key in locked))
  {
    LocationsAgreeIffClean(url, id);
    LocationsAgreeIffClean(url, other);
    CleanPrefixIsTrimmed(ParseUrl(url).path, id);
    SiblingIsReachedIffIdIsPrefix(ParseS3Location(url).loc.prefix, id, other, rest);
  }
}
