/**
The remote configuration overlay (`src/control.rs`): what the platform sends is merged
under local policy into an effective configuration and a map of rejected settings, and a
new run's capture policy is then narrowed by it. JSON text arrives parsed.
*/
module RemoteConfig {
  import opened Basics
  import opened Options
  import opened Bytes
  import JsonScan

  const MAX_CONFIG_BYTES: nat := 256 * 1024
  const MAX_CONFIG_SECTIONS: nat := 32
  const MAX_REDACT_FIELDS: nat := 1_024
  const MAX_REDACT_HEADERS: nat := 1_024
  const MAX_CAPTURE_BODY_BYTES: nat := 64 * 1024 * 1024
  const DEFAULT_BATCH_BYTES: nat := 4 * 1024 * 1024
  const DEFAULT_BATCH_AGE_MS: nat := 5_000

  /** JSON values as the merge reads them: `Number` is what fits an unsigned 64-bit integer. */
  datatype Value =
    | Boolean(b: bool)
    | Number(n: nat)
    | Text(text: string)
    | List(items: seq<Value>)
    | Object(fields: map<Name, Value>)
    | Other

  datatype LocalPolicy = LocalPolicy(allowRemoteDelete: bool, classErasureEnabled: bool, maxBodyBytes: nat)

  /** The parts of the effective configuration that a remote configuration can change. */
  datatype Effective = Effective(
    captureBodies: bool, maxBodyBytes: nat, redactFields: set<string>, ttl: map<Name, nat>, remoteDelete: bool)

  datatype Reason =
    | NotAnObject | NotABoolean | NotPositive | LocalMaximum | BadRedactFields | PtyDisabled | UnknownField
    | FixedUpload | SensitiveDisabled | BadTtl | RemoteDeleteDisabled | NeedsLocalKey | LocalSpool
    | EgressNotApplied | UnknownSection

  datatype Error = TooLarge | TooComplex | NotAnObjectConfig | TooManySections

  // ---------------------------------------------------------------- names

  /** A piece of a JSON key between dots; `Label` is any text other than the ones named here. */
  datatype Label =
    | ContentPolicy | Upload | SensitiveTierUpload | RetentionLocal | EgressClassification | Scope | ConfigVersion
    | CaptureBodies | MaxBodyBytes | RedactFields | Pty | BatchMaxBytes | BatchMaxAgeMs
    | AckedEventsTtl | BodyTtl | PcapTtl | TlsSecretsTtl
    | Label(text: string)

  /** A JSON key, cut at its dots. */
  datatype Name = One(head: Label) | Dotted(head: Label, rest: Name)

  const CONTENT: Name := One(ContentPolicy)
  const UPLOAD: Name := One(Upload)
  const SENSITIVE: Name := One(SensitiveTierUpload)
  const RETENTION: Name := One(RetentionLocal)
  const EGRESS: Name := One(EgressClassification)
  const KNOWN_SECTIONS: set<Name> := {CONTENT, UPLOAD, SENSITIVE, RETENTION, EGRESS, One(Scope), One(ConfigVersion)}

  const CAPTURE_BODIES: Name := One(CaptureBodies)
  const MAX_BODY_BYTES: Name := One(MaxBodyBytes)
  const REDACT_FIELDS: Name := One(RedactFields)
  const PTY: Name := One(Pty)

  const ACKED_TTL: Name := One(AckedEventsTtl)
  const TTLS: seq<Name> := [ACKED_TTL, One(BodyTtl), One(PcapTtl), One(TlsSecretsTtl)]

  /** The HTTP library's header-name check, and the headers that are always redacted. */
  datatype Http = Http(token: string -> bool, secret: set<string>)

  function Lower(name: string): string { seq(|name|, i requires 0 <= i < |name| => LowerChar(name[i])) }

  predicate HasUppercase(name: string) { exists c :: c in name && 'A' <= c <= 'Z' }

  predicate ValidHeaderName(http: Http, name: string) {
    0 < |name| <= 256 && !HasUppercase(name) && http.token(name)
  }

  // --------------------------------------------------- the declared meaning

  /** The redaction fields a value supplies, when every one of them is acceptable. */
  function SuppliedFields(http: Http, value: Value): Option<set<string>> {
    if value.List? && |value.items| <= MAX_REDACT_FIELDS
       && forall v :: v in value.items ==> v.Text? && ValidHeaderName(http, Lower(v.text))
    then Some(set v | v in value.items :: Lower(v.text))
    else None
  }

  /** A TTL takes effect when it is in range and local policy allows that kind of deletion. */
  predicate Takes(local: LocalPolicy, name: Name, value: Value) {
    && name in TTLS && value.Number? && 1 <= value.n <= 8_760
    && local.allowRemoteDelete && (name != ACKED_TTL ==> local.classErasureEnabled)
  }

  predicate FieldRejected(http: Http, local: LocalPolicy, section: Label, name: Name, value: Value) {
    if section.ContentPolicy? then
      if name == CAPTURE_BODIES then !value.Boolean?
      else if name == MAX_BODY_BYTES then !(value.Number? && 0 < value.n <= local.maxBodyBytes)
      else if name == REDACT_FIELDS then SuppliedFields(http, value).None?
      else if name == PTY then value != Boolean(false)
      else true
    else if section.Upload? then
      !(name == One(BatchMaxBytes) && value == Number(DEFAULT_BATCH_BYTES))
      && !(name == One(BatchMaxAgeMs) && value == Number(DEFAULT_BATCH_AGE_MS))
    else
      !Takes(local, name, value)
  }

  predicate SectionRejected(name: Name, value: Value) {
    if name in {CONTENT, UPLOAD, RETENTION} then !value.Object?
    else if name in {SENSITIVE, EGRESS} then true
    else name !in KNOWN_SECTIONS
  }

  /** `key` names a field of this section that is rejected. */
  predicate RejectsField(http: Http, local: LocalPolicy, section: Label, fields: map<Name, Value>, key: Name) {
    && key.Dotted? && key.head == section && key.rest in fields
    && FieldRejected(http, local, section, key.rest, fields[key.rest])
  }

  predicate RejectsIn(http: Http, local: LocalPolicy, section: Label, value: Value, key: Name) {
    if value.Object? then RejectsField(http, local, section, value.fields, key) else key == One(section)
  }

  /** The keys of the rejected map. */
  predicate Rejected(http: Http, local: LocalPolicy, config: map<Name, Value>, key: Name) {
    || (key in config && SectionRejected(key, config[key]))
    || (key.Dotted? && key.head in {ContentPolicy, Upload, RetentionLocal}
        && RejectsField(http, local, key.head, FieldsOf(config, key.head), key))
  }

  function FieldsOf(config: map<Name, Value>, section: Label): map<Name, Value> {
    if One(section) in config && config[One(section)].Object? then config[One(section)].fields else map[]
  }

  function DefaultEffective(http: Http, local: LocalPolicy): Effective {
    Effective(true, local.maxBodyBytes, http.secret, map[], false)
  }

  function MergedCapture(content: map<Name, Value>, e: Effective): bool {
    if CAPTURE_BODIES in content && content[CAPTURE_BODIES].Boolean? then content[CAPTURE_BODIES].b
    else e.captureBodies
  }

  function MergedMaximum(local: LocalPolicy, content: map<Name, Value>, e: Effective): nat {
    if MAX_BODY_BYTES in content && content[MAX_BODY_BYTES].Number? && content[MAX_BODY_BYTES].n > 0
    then Min(content[MAX_BODY_BYTES].n, local.maxBodyBytes) else e.maxBodyBytes
  }

  function MergedRedaction(http: Http, content: map<Name, Value>, e: Effective): set<string> {
    if REDACT_FIELDS in content && SuppliedFields(http, content[REDACT_FIELDS]).Some?
    then http.secret + SuppliedFields(http, content[REDACT_FIELDS]).value else e.redactFields
  }

  function MergedContent(http: Http, local: LocalPolicy, content: map<Name, Value>, e: Effective)
    : Effective
  {
    e.(captureBodies := MergedCapture(content, e),
       maxBodyBytes := MergedMaximum(local, content, e),
       redactFields := MergedRedaction(http, content, e))
  }

  function EffectiveTtls(local: LocalPolicy, retention: map<Name, Value>): map<Name, nat> {
    map n | n in retention && Takes(local, n, retention[n]) :: retention[n].n
  }

  function Merged(http: Http, local: LocalPolicy, config: map<Name, Value>): Effective {
    var ttl := EffectiveTtls(local, FieldsOf(config, RetentionLocal));
    MergedContent(http, local, FieldsOf(config, ContentPolicy), DefaultEffective(http, local))
      .(ttl := ttl, remoteDelete := ttl != map[])
  }

  // ------------------------------------------------------------ the merge

  method ParseRedactFields(http: Http, value: Value) returns (fields: Option<set<string>>)
    ensures fields == SuppliedFields(http, value)
  {
    if !value.List? || |value.items| > MAX_REDACT_FIELDS {
      return None;
    }
    var items, output := value.items, {};
    for i := 0 to |items|
      invariant forall v :: v in items[..i] ==> v.Text? && ValidHeaderName(http, Lower(v.text))
      invariant output == set v | v in items[..i] :: Lower(v.text)
    {
      assert items[i] in items;
      if !items[i].Text? || !ValidHeaderName(http, Lower(items[i].text)) {
        return None;
      }
      assert items[..i + 1] == items[..i] + [items[i]];
      output := output + {Lower(items[i].text)};
    }
    assert items[..|items|] == items;
    return Some(output);
  }

  class Merge {
    var effective: Effective
    var rejected: map<Name, Reason>

    constructor (http: Http, local: LocalPolicy)
      ensures effective == DefaultEffective(http, local) && rejected == map[]
    {
      effective, rejected := DefaultEffective(http, local), map[];
    }

    /** Rejects each of `names`, a section's unsupported fields. */
    method RejectAll(section: Label, names: set<Name>, reason: Reason)
      modifies this`rejected
      ensures forall k :: k in rejected <==> k in old(rejected) || (k.Dotted? && k.head == section && k.rest in names)
    {
      var left := names;
      while left != {}
        invariant left <= names
        invariant forall k :: k in rejected <==>
          k in old(rejected) || (k.Dotted? && k.head == section && k.rest in names && k.rest !in left)
      {
        var f :| f in left;
        rejected := rejected[Dotted(section, f) := reason];
        left := left - {f};
      }
    }

    method MergeCaptureBodies(http: Http, local: LocalPolicy, content: map<Name, Value>)
      modifies this
      ensures effective == old(effective).(captureBodies := MergedCapture(content, old(effective)))
      ensures forall k :: k in rejected <==> k in old(rejected) || (RejectsField(http, local, ContentPolicy, content, k) && k.rest == CAPTURE_BODIES)
    {
      if CAPTURE_BODIES in content {
        if content[CAPTURE_BODIES].Boolean? {
          effective := effective.(captureBodies := content[CAPTURE_BODIES].b);
        } else {
          rejected := rejected[Dotted(ContentPolicy, CAPTURE_BODIES) := NotABoolean];
        }
      }
    }

    method MergeMaximum(http: Http, local: LocalPolicy, content: map<Name, Value>)
      modifies this
      ensures effective == old(effective).(maxBodyBytes := MergedMaximum(local, content, old(effective)))
      ensures forall k :: k in rejected <==> k in old(rejected) || (RejectsField(http, local, ContentPolicy, content, k) && k.rest == MAX_BODY_BYTES)
    {
      if MAX_BODY_BYTES in content {
        if content[MAX_BODY_BYTES].Number? && content[MAX_BODY_BYTES].n > 0 {
          var bounded := Min(content[MAX_BODY_BYTES].n, local.maxBodyBytes);
          effective := effective.(maxBodyBytes := bounded);
          if bounded != content[MAX_BODY_BYTES].n {
            rejected := rejected[Dotted(ContentPolicy, MAX_BODY_BYTES) := LocalMaximum];
          }
        } else {
          rejected := rejected[Dotted(ContentPolicy, MAX_BODY_BYTES) := NotPositive];
        }
      }
    }

    method MergeRedaction(http: Http, local: LocalPolicy, content: map<Name, Value>)
      modifies this
      ensures effective == old(effective).(redactFields := MergedRedaction(http, content, old(effective)))
      ensures forall k :: k in rejected <==> k in old(rejected) || (RejectsField(http, local, ContentPolicy, content, k) && k.rest == REDACT_FIELDS)
    {
      if REDACT_FIELDS in content {
        var fields := ParseRedactFields(http, content[REDACT_FIELDS]);
        if fields.Some? {
          effective := effective.(redactFields := http.secret + fields.value);
        } else {
          rejected := rejected[Dotted(ContentPolicy, REDACT_FIELDS) := BadRedactFields];
        }
      }
    }

    method MergeContentPolicy(http: Http, local: LocalPolicy, value: Value)
      modifies this
      ensures effective ==
        if value.Object? then MergedContent(http, local, value.fields, old(effective)) else old(effective)
      ensures forall k :: k in rejected <==> k in old(rejected) || RejectsIn(http, local, ContentPolicy, value, k)
    {
      if !value.Object? {
        rejected := rejected[CONTENT := NotAnObject];
        return;
      }
      var content := value.fields;
      MergeCaptureBodies(http, local, content);
      MergeMaximum(http, local, content);
      MergeRedaction(http, local, content);
      if PTY in content && content[PTY] != Boolean(false) {
        rejected := rejected[Dotted(ContentPolicy, PTY) := PtyDisabled];
      }
      RejectAll(ContentPolicy, content.Keys - {CAPTURE_BODIES, MAX_BODY_BYTES, REDACT_FIELDS, PTY}, UnknownField);
    }

    method RejectUnsupportedUpload(http: Http, local: LocalPolicy, value: Value)
      modifies this`rejected
      ensures forall k :: k in rejected <==> k in old(rejected) || RejectsIn(http, local, Upload, value, k)
    {
      if !value.Object? {
        rejected := rejected[UPLOAD := NotAnObject];
        return;
      }
      RejectAll(Upload, (set f | f in value.fields && FieldRejected(http, local, Upload, f, value.fields[f])), FixedUpload);
    }

    method MergeTtl(http: Http, local: LocalPolicy, retention: map<Name, Value>, name: Name)
      requires name in TTLS
      modifies this
      ensures effective == if name in retention && Takes(local, name, retention[name])
        then old(effective).(ttl := old(effective).ttl[name := retention[name].n], remoteDelete := true)
        else old(effective)
      ensures forall k :: k in rejected <==> k in old(rejected) || (RejectsField(http, local, RetentionLocal, retention, k) && k.rest == name)
    {
      if name !in retention {
        return;
      }
      var value, setting := retention[name], Dotted(RetentionLocal, name);
      if !value.Number? || !(1 <= value.n <= 8_760) {
        rejected := rejected[setting := BadTtl];
        return;
      }
      if !local.allowRemoteDelete {
        rejected := rejected[setting := RemoteDeleteDisabled];
      } else if name != ACKED_TTL && !local.classErasureEnabled {
        rejected := rejected[setting := NeedsLocalKey];
      } else {
        effective := effective.(ttl := effective.ttl[name := value.n], remoteDelete := true);
      }
    }

    method MergeRetentionPolicy(http: Http, local: LocalPolicy, value: Value)
      requires effective.ttl == map[] && !effective.remoteDelete
      modifies this
      ensures var ttl := EffectiveTtls(local, if value.Object? then value.fields else map[]);
        effective == old(effective).(ttl := ttl, remoteDelete := ttl != map[])
      ensures forall k :: k in rejected <==> k in old(rejected) || RejectsIn(http, local, RetentionLocal, value, k)
    {
      if !value.Object? {
        rejected := rejected[RETENTION := NotAnObject];
        return;
      }
      var retention := value.fields;
      for i := 0 to |TTLS|
        invariant effective == old(effective).(ttl := TtlsOf(local, retention, TTLS[..i]),
                                               remoteDelete := TtlsOf(local, retention, TTLS[..i]) != map[])
        invariant forall k :: k in rejected <==>
          k in old(rejected) || (RejectsField(http, local, RetentionLocal, retention, k) && k.rest in TTLS[..i])
      {
        MergeTtl(http, local, retention, TTLS[i]);
        OneMoreTtl(local, retention, i);
        assert TTLS[..i + 1] == TTLS[..i] + [TTLS[i]];
      }
      assert TTLS[..|TTLS|] == TTLS;
      assert TtlsOf(local, retention, TTLS) == EffectiveTtls(local, retention);
      RejectAll(RetentionLocal, (set f | f in retention && f !in TTLS), LocalSpool);
    }

    method MergeContentSection(http: Http, local: LocalPolicy, sections: map<Name, Value>)
      modifies this
      ensures effective == MergedContent(http, local, FieldsOf(sections, ContentPolicy), old(effective))
      ensures forall k :: k in rejected <==> k in old(rejected) || RejectsSection(http, local, sections, ContentPolicy, k)
    {
      if CONTENT in sections {
        MergeContentPolicy(http, local, sections[CONTENT]);
      }
    }

    method RejectUploadSection(http: Http, local: LocalPolicy, sections: map<Name, Value>)
      modifies this`rejected
      ensures forall k :: k in rejected <==> k in old(rejected) || RejectsSection(http, local, sections, Upload, k)
    {
      if UPLOAD in sections {
        RejectUnsupportedUpload(http, local, sections[UPLOAD]);
      }
    }

    method MergeRetentionSection(http: Http, local: LocalPolicy, sections: map<Name, Value>)
      requires effective.ttl == map[] && !effective.remoteDelete
      modifies this
      ensures var ttl := EffectiveTtls(local, FieldsOf(sections, RetentionLocal));
        effective == old(effective).(ttl := ttl, remoteDelete := ttl != map[])
      ensures forall k :: k in rejected <==> k in old(rejected) || RejectsSection(http, local, sections, RetentionLocal, k)
    {
      if RETENTION in sections {
        MergeRetentionPolicy(http, local, sections[RETENTION]);
      }
    }

    method MergeSections(http: Http, local: LocalPolicy, sections: map<Name, Value>)
      requires effective == DefaultEffective(http, local) && rejected == map[]
      modifies this
      ensures effective == Merged(http, local, sections)
      ensures forall k :: k in rejected <==> Rejected(http, local, sections, k)
    {
      MergeContentSection(http, local, sections);
      RejectUploadSection(http, local, sections);
      if SENSITIVE in sections {
        rejected := rejected[SENSITIVE := if sections[SENSITIVE].Object? then SensitiveDisabled else NotAnObject];
      }
      MergeRetentionSection(http, local, sections);
      if EGRESS in sections {
        rejected := rejected[EGRESS := EgressNotApplied];
      }
      RejectUnknownSections(sections);
      forall k ensures k in rejected <==> Rejected(http, local, sections, k) {
        RejectedParts(http, local, sections, k);
      }
    }

    method RejectUnknownSections(sections: map<Name, Value>)
      modifies this`rejected
      ensures forall k :: k in rejected <==> k in old(rejected) || (k in sections && k !in KNOWN_SECTIONS)
    {
      var names := sections.Keys - KNOWN_SECTIONS;
      var left := names;
      while left != {}
        invariant left <= names
        invariant forall k :: k in rejected <==> k in old(rejected) || (k in names && k !in left)
      {
        var n :| n in left;
        rejected := rejected[n := UnknownSection];
        left := left - {n};
      }
    }
  }

  /** `config` is `None` when the JSON document is not an object; `encoded` is its text. */
  method MergeRemoteConfig(http: Http, local: LocalPolicy, encoded: seq<Byte>, config: Option<map<Name, Value>>)
    returns (result: Result<(Effective, map<Name, Reason>), Error>)
    ensures result.Ok? <==> (
      && |encoded| <= MAX_CONFIG_BYTES && JsonScan.Accepts(JsonScan.PAYLOAD_LIMITS, encoded)
      && config.Some? && |config.value| <= MAX_CONFIG_SECTIONS)
    ensures result.Ok? ==>
      && result.value.0 == Merged(http, local, config.value)
      && forall k :: k in result.value.1 <==> Rejected(http, local, config.value, k)
  {
    if |encoded| > MAX_CONFIG_BYTES {
      return Err(TooLarge);
    }
    var simple := JsonScan.ValidateJsonComplexity(encoded);
    if !simple {
      return Err(TooComplex);
    }
    if config.None? {
      return Err(NotAnObjectConfig);
    }
    if |config.value| > MAX_CONFIG_SECTIONS {
      return Err(TooManySections);
    }
    var merge := new Merge(http, local);
    merge.MergeSections(http, local, config.value);
    return Ok((merge.effective, merge.rejected));
  }

  predicate RejectsSection(http: Http, local: LocalPolicy, config: map<Name, Value>, section: Label, key: Name) {
    One(section) in config && RejectsIn(http, local, section, config[One(section)], key)
  }

  lemma {:induction false} RejectedParts(http: Http, local: LocalPolicy, config: map<Name, Value>, k: Name)
    ensures Rejected(http, local, config, k) <==> (
      || RejectsSection(http, local, config, ContentPolicy, k)
      || RejectsSection(http, local, config, Upload, k)
      || (SENSITIVE in config && k == SENSITIVE)
      || RejectsSection(http, local, config, RetentionLocal, k)
      || (EGRESS in config && k == EGRESS)
      || (k in config && k !in KNOWN_SECTIONS))
  {
  }

  function TtlsOf(local: LocalPolicy, retention: map<Name, Value>, names: seq<Name>): map<Name, nat> {
    map n | n in names && n in retention && Takes(local, n, retention[n]) :: retention[n].n
  }

  lemma {:induction false} OneMoreTtl(local: LocalPolicy, retention: map<Name, Value>, i: nat)
    requires i < |TTLS|
    ensures TtlsOf(local, retention, TTLS[..i + 1]) ==
      if TTLS[i] in retention && Takes(local, TTLS[i], retention[TTLS[i]])
      then TtlsOf(local, retention, TTLS[..i])[TTLS[i] := retention[TTLS[i]].n]
      else TtlsOf(local, retention, TTLS[..i])
    ensures TTLS[i] in retention && Takes(local, TTLS[i], retention[TTLS[i]]) ==>
      TTLS[i] in TtlsOf(local, retention, TTLS[..i + 1])
  {
    assert TTLS[..i + 1] == TTLS[..i] + [TTLS[i]];
  }

  // ------------------------------------------- where a supplied TTL lands

  /**
   * A recognised TTL that is supplied lands in exactly one of the effective configuration
   * and the rejected map, unless it takes effect and the document also holds a top-level
   * section whose name is the setting's dotted name: that one is rejected as unknown.
   */
  lemma {:induction false} TtlLandsOnce(http: Http, local: LocalPolicy, config: map<Name, Value>, name: Name)
    requires name in TTLS && name in FieldsOf(config, RetentionLocal)
    ensures var effective := name in Merged(http, local, config).ttl;
      var rejected := Rejected(http, local, config, Dotted(RetentionLocal, name));
      && (effective <==> Takes(local, name, FieldsOf(config, RetentionLocal)[name]))
      && (effective || rejected)
      && (effective && rejected <==>
          Takes(local, name, FieldsOf(config, RetentionLocal)[name]) && Dotted(RetentionLocal, name) in config)
  {
  }

  /** One document, one TTL, both effective and rejected. */
  lemma {:induction false} TtlCanLandTwice(http: Http, local: LocalPolicy)
    requires local.allowRemoteDelete
    ensures var config := map[
        RETENTION := Object(map[ACKED_TTL := Number(24)]), Dotted(RetentionLocal, ACKED_TTL) := Other];
      && Merged(http, local, config).ttl == map[ACKED_TTL := 24]
      && Rejected(http, local, config, Dotted(RetentionLocal, ACKED_TTL))
  {
    var config := map[
      RETENTION := Object(map[ACKED_TTL := Number(24)]), Dotted(RetentionLocal, ACKED_TTL) := Other];
    assert FieldsOf(config, RetentionLocal) == map[ACKED_TTL := Number(24)];
    TtlLandsOnce(http, local, config, ACKED_TTL);
  }

  // ------------------------------------------------------ a new run's policy

  datatype BodyCaptureMode = Full | MetadataOnly

  datatype Policy = Policy(
    name: string, bodyMode: BodyCaptureMode, maxBlobBytes: nat, allowedPaths: seq<string>, redactHeaders: set<string>)

  predicate HasControl(text: string) {
    exists c :: c in text && (c < ' ' || '\U{7F}' <= c <= '\U{9F}')
  }

  predicate PolicyValid(http: Http, p: Policy) {
    && 0 < |p.name| <= 128 && !HasControl(p.name)
    && p.maxBlobBytes <= MAX_CAPTURE_BODY_BYTES
    && |p.allowedPaths| <= 1_024
    && (forall path :: path in p.allowedPaths ==> "/" <= path && |path| <= 2_048 && !HasControl(path))
    && |p.redactHeaders| <= MAX_REDACT_HEADERS
    && (forall h :: h in p.redactHeaders ==> !HasUppercase(h) && http.token(h))
  }

  /** No fuller body mode, no larger byte limit, no redaction lost, all else the same. */
  predicate NoLooser(after: Policy, before: Policy) {
    && (after.bodyMode.Full? ==> before.bodyMode.Full?)
    && after.maxBlobBytes <= before.maxBlobBytes
    && before.redactHeaders <= after.redactHeaders
    && after.name == before.name && after.allowedPaths == before.allowedPaths
  }

  function Tightened(p: Policy, e: Effective): Policy {
    p.(bodyMode := if e.captureBodies then p.bodyMode else MetadataOnly,
       maxBlobBytes := Min(p.maxBlobBytes, e.maxBodyBytes),
       redactHeaders := p.redactHeaders + e.redactFields)
  }

  predicate Applies(http: Http, p: Policy, e: Effective) {
    && |e.redactFields| <= MAX_REDACT_FIELDS
    && (forall f :: f in e.redactFields ==> ValidHeaderName(http, f))
    && PolicyValid(http, Tightened(p, e))
  }

  class NewRun {
    var policy: Policy

    constructor (p: Policy)
      ensures policy == p
    {
      policy := p;
    }

    /** `state` is the collector's stored configuration, if there is one. Fails part way without ever loosening. */
    method ApplyNewRunConfig(http: Http, state: Option<Effective>) returns (applied: Option<bool>)
      modifies this
      ensures NoLooser(policy, old(policy))
      ensures state.None? ==> applied == Some(false) && policy == old(policy)
      ensures state.Some? ==> applied == if Applies(http, old(policy), state.value) then Some(true) else None
      ensures applied == Some(true) ==> policy == Tightened(old(policy), state.value)
    {
      if state.None? {
        return Some(false);
      }
      var e := state.value;
      if !e.captureBodies {
        policy := policy.(bodyMode := MetadataOnly);
      }
      policy := policy.(maxBlobBytes := Min(policy.maxBlobBytes, e.maxBodyBytes));
      if |e.redactFields| > MAX_REDACT_FIELDS {
        return None;
      }
      var valid := RedactFields(http, e.redactFields);
      return if valid && PolicyValid(http, policy) then Some(true) else None;
    }

    /** Adds the fields one by one, up to the first that is no header name. */
    method RedactFields(http: Http, fields: set<string>) returns (valid: bool)
      modifies this
      ensures valid <==> forall f :: f in fields ==> ValidHeaderName(http, f)
      ensures policy == old(policy).(redactHeaders := policy.redactHeaders)
      ensures old(policy).redactHeaders <= policy.redactHeaders <= old(policy).redactHeaders + fields
      ensures valid ==> policy.redactHeaders == old(policy).redactHeaders + fields
    {
      var left := fields;
      while left != {}
        invariant left <= fields
        invariant forall f :: f in fields - left ==> ValidHeaderName(http, f)
        invariant policy == old(policy).(redactHeaders := old(policy).redactHeaders + (fields - left))
      {
        var f :| f in left;
        if !ValidHeaderName(http, f) {
          return false;
        }
        policy := policy.(redactHeaders := policy.redactHeaders + {f});
        left := left - {f};
      }
      assert fields - left == fields;
      return true;
    }
  }

  /** Every header name in a merged configuration is one the next reader accepts. */
  lemma {:induction false} MergedFieldsAreValid(http: Http, local: LocalPolicy, config: map<Name, Value>, field: string)
    requires forall h :: h in http.secret ==> ValidHeaderName(http, h)
    requires field in Merged(http, local, config).redactFields
    ensures ValidHeaderName(http, field)
  {
  }

  /** Merging any document and applying it to any run's policy: what it may do and when it fails. */
  lemma {:induction false} MergeThenApply(http: Http, local: LocalPolicy, config: map<Name, Value>, p: Policy)
    requires PolicyValid(http, p) && forall h :: h in http.secret ==> ValidHeaderName(http, h)
    ensures var e := Merged(http, local, config);
      && NoLooser(Tightened(p, e), p)
      && Tightened(p, e).maxBlobBytes <= local.maxBodyBytes
      && http.secret <= Tightened(p, e).redactHeaders
      && (Applies(http, p, e) <==> |p.redactHeaders + e.redactFields| <= MAX_REDACT_HEADERS)
  {
    var e := Merged(http, local, config);
    var t := Tightened(p, e);
    forall h | h in t.redactHeaders ensures !HasUppercase(h) && http.token(h) {
      if h !in p.redactHeaders { MergedFieldsAreValid(http, local, config, h); }
    }
    forall f | f in e.redactFields ensures ValidHeaderName(http, f) {
      MergedFieldsAreValid(http, local, config, f);
    }
    SubsetSize(e.redactFields, t.redactHeaders);
  }

  // --------------------------------------- a document that cannot be applied

  function Letter(d: nat): char
    requires d < 16
  {
    'a' + d as char
  }

  /** A three-letter header name for each number below 4,096. */
  function ThreeLetters(i: nat): string
    requires i < 4_096
  {
    [Letter(i / 256), Letter(i / 16 % 16), Letter(i % 16)]
  }

  lemma {:induction false} LettersDiffer(a: nat, b: nat)
    requires a < 16 && b < 16 && Letter(a) == Letter(b)
    ensures a == b
  {
    assert Letter(a) as int == 97 + a && Letter(b) as int == 97 + b;
  }

  lemma {:induction false} ThreeLettersDiffer(i: nat, j: nat)
    requires i < 4_096 && j < 4_096 && ThreeLetters(i) == ThreeLetters(j)
    ensures i == j
  {
    assert ThreeLetters(i)[0] == ThreeLetters(j)[0] && ThreeLetters(i)[1] == ThreeLetters(j)[1]
           && ThreeLetters(i)[2] == ThreeLetters(j)[2];
    LettersDiffer(i / 256, j / 256);
    LettersDiffer(i / 16 % 16, j / 16 % 16);
    LettersDiffer(i % 16, j % 16);
    assert i / 256 == i / 16 / 16 && j / 256 == j / 16 / 16;
  }

  lemma {:induction false} ThreeLettersCount(n: nat)
    requires n <= 4_096
    ensures |set i: nat | i < n :: ThreeLetters(i)| == n
  {
    if n > 0 {
      ThreeLettersCount(n - 1);
      var fewer := set i: nat | i < n - 1 :: ThreeLetters(i);
      forall i: nat | i < n - 1 ensures ThreeLetters(i) != ThreeLetters(n - 1) {
        if ThreeLetters(i) == ThreeLetters(n - 1) { ThreeLettersDiffer(i, n - 1); }
      }
      assert (set i: nat | i < n :: ThreeLetters(i)) == fewer + {ThreeLetters(n - 1)};
    }
  }

  function ManyFields(): Value {
    List(seq(MAX_REDACT_FIELDS, i requires 0 <= i < MAX_REDACT_FIELDS => Text(ThreeLetters(i))))
  }

  function ManyFieldsConfig(): map<Name, Value> {
    map[CONTENT := Object(map[REDACT_FIELDS := ManyFields()])]
  }

  lemma {:induction false} LowerStays(i: nat)
    requires i < 4_096
    ensures Lower(ThreeLetters(i)) == ThreeLetters(i) && !HasUppercase(ThreeLetters(i))
  {
  }

  lemma {:induction false} ManyFieldsAreSupplied(http: Http)
    requires forall i: nat :: i < MAX_REDACT_FIELDS ==> http.token(ThreeLetters(i))
    ensures SuppliedFields(http, ManyFields()) == Some(set i: nat | i < MAX_REDACT_FIELDS :: ThreeLetters(i))
  {
    var items := ManyFields().items;
    var want := set i: nat | i < MAX_REDACT_FIELDS :: ThreeLetters(i);
    forall v | v in items ensures v.Text? && ValidHeaderName(http, Lower(v.text)) && Lower(v.text) in want {
      var i: nat :| i < |items| && items[i] == v;
      LowerStays(i);
    }
    var got := set v | v in items :: Lower(v.text);
    forall i: nat | i < MAX_REDACT_FIELDS ensures ThreeLetters(i) in got {
      LowerStays(i);
      assert items[i] in items && Lower(items[i].text) == ThreeLetters(i);
    }
    assert got == want;
  }

  lemma {:induction false} ManyFieldsAreMerged(http: Http, local: LocalPolicy, h: string)
    requires forall i: nat :: i < MAX_REDACT_FIELDS ==> http.token(ThreeLetters(i))
    requires h in http.secret && |h| > 3
    ensures |Merged(http, local, ManyFieldsConfig()).redactFields| > MAX_REDACT_FIELDS
  {
    var fields := set i: nat | i < MAX_REDACT_FIELDS :: ThreeLetters(i);
    ManyFieldsAreSupplied(http);
    ThreeLettersCount(MAX_REDACT_FIELDS);
    var content := FieldsOf(ManyFieldsConfig(), ContentPolicy);
    assert content[REDACT_FIELDS] == ManyFields();
    assert Merged(http, local, ManyFieldsConfig()).redactFields == http.secret + fields;
    assert h !in fields;
    SubsetSize(fields + {h}, http.secret + fields);
  }

  /** 1,024 fields that the merge accepts and one header that is always redacted are more than any run accepts. */
  lemma {:induction false} AcceptedFieldsCanBlockRuns(http: Http, local: LocalPolicy, p: Policy, h: string)
    requires forall i: nat :: i < MAX_REDACT_FIELDS ==> http.token(ThreeLetters(i))
    requires h in http.secret && |h| > 3
    ensures !Rejected(http, local, ManyFieldsConfig(), Dotted(ContentPolicy, REDACT_FIELDS))
    ensures !Applies(http, p, Merged(http, local, ManyFieldsConfig()))
  {
    ManyFieldsAreSupplied(http);
    assert FieldsOf(ManyFieldsConfig(), ContentPolicy)[REDACT_FIELDS] == ManyFields();
    ManyFieldsAreMerged(http, local, h);
  }
}
