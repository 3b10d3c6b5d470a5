/** The durable per-member record and its Secret encoding: internal/gcpmembers/records.go. */
module Records {
  import opened Text

  // ---------------------------------------------------------------- names

  function LowerChar(c: char): char {
    if 'A' <= c <= 'Z' then (c as int + 32) as char else c
  }

  function Lower(s: string): (r: string)
    ensures |r| == |s| && forall i :: 0 <= i < |s| ==> r[i] == LowerChar(s[i])
  {
    seq(|s|, i requires 0 <= i < |s| => LowerChar(s[i]))
  }

  predicate AlphaNumeric(c: char) { 'a' <= c <= 'z' || '0' <= c <= '9' }

  /** ^[a-z0-9]([a-z0-9-]*[a-z0-9])?$ */
  predicate ValidSegment(s: string) {
    && s != [] && AlphaNumeric(s[0]) && AlphaNumeric(s[|s| - 1])
    && forall i :: 0 <= i < |s| ==> AlphaNumeric(s[i]) || s[i] == '-'
  }

  const K8S_NAME_MAX: nat := 253
  const SECRET_ID_MAX: nat := 255

  datatype ResourceNames = ResourceNames(kubernetesSecret: string, cloudSecret: string, cloudVersion: string,
      cloudIAM: string)

  function NameBase(uid: string, project: string): (r: Option<string>) {
    var base := Lower("gw-" + uid + "-" + project);
    if ValidSegment(base) then Some(base) else None
  }

  /** Names of a member's Kubernetes and cloud objects; none when they would break the naming contract. */
  function NameResourceNames(uid: string, project: string, instance: string): (r: Option<ResourceNames>)
    ensures r.Some? ==>
            ValidSegment(r.value.kubernetesSecret) && |r.value.cloudVersion| <= K8S_NAME_MAX
            && |r.value.cloudIAM| <= K8S_NAME_MAX
  {
    var prefix := NameBase(uid, project);
    if prefix.None? then None
    else
      var base := Lower(prefix.value + "-" + instance);
      if !ValidSegment(base) || |base| > SECRET_ID_MAX || |base| > K8S_NAME_MAX then None
      else if |base + "-version"| > K8S_NAME_MAX || |base + "-iam"| > K8S_NAME_MAX then None
      else Some(ResourceNames(base, base, base + "-version", base + "-iam"))
  }

  /** The Secret a member's record lives under. */
  function SecretName(uid: string, project: string, instance: string): Option<string> {
    var names := NameResourceNames(uid, project, instance);
    if names.Some? then Some(names.value.kubernetesSecret) else None
  }

  /** Two members of one Gateway share a Secret exactly when their names differ in letter case only. */
  lemma SecretNamesCollideIff(uid: string, project: string, m: string, n: string)
    requires SecretName(uid, project, m).Some? && SecretName(uid, project, n).Some?
    ensures SecretName(uid, project, m) == SecretName(uid, project, n) <==> Lower(m) == Lower(n)
  {
    var p := NameBase(uid, project).value + "-";
    LowerConcat(p, m);
    LowerConcat(p, n);
    assert Lower(p + m)[|p|..] == Lower(m) && Lower(p + n)[|p|..] == Lower(n);
  }

  lemma LowerConcat(a: string, b: string)
    ensures Lower(a + b) == Lower(a) + Lower(b)
  {}

  // ---------------------------------------------------------------- records

  datatype Record = Record(
    name: string, zone: string, slot: int, privateKey: string, publicKey: string, tunnelAddress: string,
    subnetPrefix: int, peerPublicKey: string, peerAllowedIPs: string, externalAddress: string, instanceID: string,
    revision: string, departureCount: int, pendingConfirmation: bool, gatewayUID: string, project: string)

  /** What creation fixes: the VM's write-once payload, the slot and the identity. */
  ghost predicate SameAllocation(a: Record, b: Record) {
    a == b.(zone := a.zone, externalAddress := a.externalAddress, instanceID := a.instanceID, revision := a.revision,
            departureCount := a.departureCount, pendingConfirmation := a.pendingConfirmation)
  }

  datatype Label = Name | Zone | SlotLabel | InstanceID | ExternalAddress | Project | Revision | DepartureCount |
                   PendingConfirmation | State | GatewayUID

  datatype Bundle = Bundle(privateKey: string, address: string, slot: string, peerPublicKey: string,
      peerAllowedIPs: string)

  datatype Secret = Secret(labels: map<Label, string>, bundle: Bundle)

  function Get(labels: map<Label, string>, l: Label): string { if l in labels then labels[l] else "" }

  function FormatBool(b: bool): string { if b then "true" else "false" }

  function AtoiOrZero(s: string): int { var r := Atoi(s); if r.Some? then r.value else 0 }

  function PayloadFromRecord(r: Record): Bundle
    requires Encodable(r)
  {
    Bundle(r.privateKey, r.tunnelAddress + ['/'] + Itoa(r.subnetPrefix), Itoa(r.slot), r.peerPublicKey,
        r.peerAllowedIPs)
  }

  function RecordLabels(r: Record): map<Label, string>
    requires Encodable(r)
  {
    map[Name := r.name, Zone := r.zone, SlotLabel := Itoa(r.slot), InstanceID := r.instanceID,
        ExternalAddress := r.externalAddress, Project := r.project, Revision := r.revision,
        DepartureCount := Itoa(r.departureCount), PendingConfirmation := FormatBool(r.pendingConfirmation),
        GatewayUID := r.gatewayUID]
  }

  /** Numbers in range and an address without a slash: what every allocation writes. */
  predicate Encodable(r: Record) {
    && 0 <= r.slot < INT_LIMIT && 0 <= r.subnetPrefix < INT_LIMIT && 0 <= r.departureCount < INT_LIMIT
    && '/' !in r.tunnelAddress
  }

  function SecretFromRecord(r: Record): Secret
    requires Encodable(r)
  {
    Secret(RecordLabels(r), PayloadFromRecord(r))
  }

  /** "<address>/<prefix>" apart; the empty text stands for no address yet. */
  function SplitCIDR(address: string): (r: Option<(string, int)>) {
    if address == "" then Some(("", 0))
    else
      var cut := CutAt(address, '/');
      if !cut.found then None
      else
        var ones := Atoi(cut.after);
        if ones.None? then None else Some((cut.before, ones.value))
  }

  /** Decoding; `derive` turns a private key into its public key and fails on text that is no key. */
  function RecordFromSecret(s: Secret, derive: string -> Option<string>): Option<Record> {
    var pub := if s.bundle.privateKey == "" then Some("") else derive(s.bundle.privateKey);
    var cidr := SplitCIDR(s.bundle.address);
    if pub.None? || cidr.None? then None
    else Some(Record(
      Get(s.labels, Name), Get(s.labels, Zone), AtoiOrZero(Get(s.labels, SlotLabel)), s.bundle.privateKey, pub.value,
      cidr.value.0, cidr.value.1, s.bundle.peerPublicKey, s.bundle.peerAllowedIPs, Get(s.labels, ExternalAddress),
      Get(s.labels, InstanceID), Get(s.labels, Revision), AtoiOrZero(Get(s.labels, DepartureCount)),
      Get(s.labels, PendingConfirmation) == "true", Get(s.labels, GatewayUID), Get(s.labels, Project)))
  }

  lemma SecretRoundTrip(r: Record, derive: string -> Option<string>)
    requires Encodable(r)
    requires r.privateKey != "" && derive(r.privateKey) == Some(r.publicKey)
    ensures RecordFromSecret(SecretFromRecord(r), derive) == Some(r)
  {
    var s := SecretFromRecord(r);
    ReadLabels(r);
    NumberRoundTrip(r.slot);
    NumberRoundTrip(r.departureCount);
    SplitOfJoin(r.tunnelAddress, r.subnetPrefix);
    assert s.bundle.address == r.tunnelAddress + ['/'] + Itoa(r.subnetPrefix);
  }

  lemma ReadLabels(r: Record)
    requires Encodable(r)
    ensures var l := RecordLabels(r);
            && Get(l, Name) == r.name && Get(l, Zone) == r.zone && Get(l, SlotLabel) == Itoa(r.slot)
            && Get(l, InstanceID) == r.instanceID && Get(l, ExternalAddress) == r.externalAddress
            && Get(l, Project) == r.project && Get(l, Revision) == r.revision
            && Get(l, DepartureCount) == Itoa(r.departureCount) && Get(l, GatewayUID) == r.gatewayUID
            && (Get(l, PendingConfirmation) == "true") == r.pendingConfirmation
  {
    BoolText();
  }

  lemma BoolText()
    ensures FormatBool(true) == "true" && FormatBool(false) != "true"
  {
    assert FormatBool(false)[0] != "true"[0];
  }

  lemma NumberRoundTrip(n: nat)
    requires n < INT_LIMIT
    ensures AtoiOrZero(Itoa(n)) == n
  {
    AtoiOfItoa(n);
  }

  lemma SplitOfJoin(address: string, prefix: nat)
    requires '/' !in address && prefix < INT_LIMIT
    ensures SplitCIDR(address + ['/'] + Itoa(prefix)) == Some((address, prefix))
  {
    AtoiOfItoa(prefix);
    CutOfJoin(address, Itoa(prefix), '/');
  }

  // ---------------------------------------------------------------- label updates

  /** The label changes a pass can make to one record; a missing field leaves its label alone. */
  datatype Update = Update(count: Option<nat>, external: Option<string>, instanceID: Option<string>,
      zone: Option<string>,
                           revision: Option<string>, pending: Option<bool>, state: Option<string>)

  function LabelValue(u: Update, l: Label): Option<string> {
    match l
    case DepartureCount => if u.count.Some? then Some(Itoa(u.count.value)) else None
    case ExternalAddress => u.external
    case InstanceID => u.instanceID
    case Zone => u.zone
    case Revision => u.revision
    case PendingConfirmation => if u.pending.Some? then Some(FormatBool(u.pending.value)) else None
    case State => u.state
    case _ => None
  }

  function LabelsOf(u: Update): map<Label, string> {
    map l: Label | LabelValue(u, l).Some? :: LabelValue(u, l).value
  }

  function Or<T>(v: Option<T>, otherwise: T): T { if v.Some? then v.value else otherwise }

  function Patch(r: Record, u: Update): Record {
    r.(departureCount := if u.count.Some? then u.count.value else r.departureCount,
       externalAddress := Or(u.external, r.externalAddress), instanceID := Or(u.instanceID, r.instanceID),
       zone := Or(u.zone, r.zone), revision := Or(u.revision, r.revision),
       pendingConfirmation := Or(u.pending, r.pendingConfirmation))
  }

  /** maps.Copy into the Secret's labels; the payload is left as it is. */
  function UpdateLabels(s: Secret, labels: map<Label, string>): Secret {
    s.(labels := s.labels + labels)
  }

  /** Writing labels is patching the record, and never reaches slot, key, address or owner. */
  lemma UpdateLabelsRefinesPatch(s: Secret, r: Record, u: Update, derive: string -> Option<string>)
    requires RecordFromSecret(s, derive) == Some(r)
    requires u.count.Some? ==> u.count.value < INT_LIMIT
    ensures RecordFromSecret(UpdateLabels(s, LabelsOf(u)), derive) == Some(Patch(r, u))
    ensures UpdateLabels(s, LabelsOf(u)).bundle == s.bundle
    ensures SameAllocation(r, Patch(r, u))
  {
    if u.count.Some? { NumberRoundTrip(u.count.value); }
    BoolText();
    UpdatedOwner(s, u);
    UpdatedPlace(s, u);
    UpdatedRetirement(s, u);
  }

  /** Who and which slot a Secret is for, no update reaches. */
  lemma UpdatedOwner(s: Secret, u: Update)
    ensures var l, l' := s.labels, UpdateLabels(s, LabelsOf(u)).labels;
            && Get(l', Name) == Get(l, Name) && Get(l', SlotLabel) == Get(l, SlotLabel)
            && Get(l', GatewayUID) == Get(l, GatewayUID) && Get(l', Project) == Get(l, Project)
  {}

  lemma UpdatedPlace(s: Secret, u: Update)
    ensures var l, l' := s.labels, UpdateLabels(s, LabelsOf(u)).labels;
            && Get(l', Zone) == Or(u.zone, Get(l, Zone)) && Get(l', Revision) == Or(u.revision, Get(l, Revision))
            && Get(l', InstanceID) == Or(u.instanceID, Get(l, InstanceID))
            && Get(l', ExternalAddress) == Or(u.external, Get(l, ExternalAddress))
  {}

  lemma UpdatedRetirement(s: Secret, u: Update)
    ensures var l, l' := s.labels, UpdateLabels(s, LabelsOf(u)).labels;
            && Get(l', DepartureCount) == (if u.count.Some? then Itoa(u.count.value) else Get(l, DepartureCount))
            && Get(l', PendingConfirmation) ==
                 (if u.pending.Some? then FormatBool(u.pending.value) else Get(l, PendingConfirmation))
  {}
}
