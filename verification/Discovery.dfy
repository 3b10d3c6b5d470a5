/** Membership discovery: internal/gcpdiscovery/client.go, the classification table and the listing loop. */
module Discovery {
  import opened Text

  datatype Action = NoAction | Creating | CreatingWithoutRetries | Recreating | Deleting | Abandoning | Restarting |
                    Refreshing | Verifying | OtherAction(text: string)

  datatype Verdict = Departed | Waiting | Present

  predicate Leaving(a: Action) { a.Deleting? || a.Abandoning? }

  /** The table, in its own order. */
  function Classify(action: Action, hasInstanceID: bool, hasRecord: bool): Verdict {
    match action
    case Deleting => Departed
    case Abandoning => Departed
    case Recreating => Present
    case _ => if !hasInstanceID then (if hasRecord then Present else Waiting) else Present
  }

  /**
   * A recorded name is either present or leaving; what is neither present nor leaving has no id, no record and no
   * recreation.
   */
  lemma ClassifyMeaning(action: Action, hasInstanceID: bool, hasRecord: bool)
    ensures Classify(action, hasInstanceID, hasRecord).Departed? <==> Leaving(action)
    ensures hasRecord ==> Classify(action, hasInstanceID, hasRecord) == if Leaving(action) then Departed else Present
    ensures Classify(action, hasInstanceID, hasRecord).Waiting? <==>
            !Leaving(action) && !action.Recreating? && !hasInstanceID && !hasRecord
  {}

  datatype Entry = Entry(name: string, action: Action, instanceID: string, zone: string, revision: string)

  datatype Listed = Listed(name: string, action: Action, instanceID: string, verdict: Verdict, zone: string,
      revision: string)

  datatype Recorded = Recorded(externalAddress: string, instanceID: string)

  /** One usable pass: every listed member, and the external address of every detail read. */
  datatype Snapshot = Snapshot(members: seq<Listed>, details: map<string, string>)

  /** instances.get: an id and an external address, or a failure. */
  datatype Instance = Unreadable | Instance(id: string, externalAddress: string)

  function Judge(e: Entry, recorded: map<string, Recorded>): Listed {
    Listed(e.name, e.action, e.instanceID, Classify(e.action, e.instanceID != "", e.name in recorded), e.zone,
        e.revision)
  }

  /** Whether a listed entry calls for a detail read. */
  predicate WantsDetail(e: Entry, recorded: map<string, Recorded>, refresh: set<string>) {
    && Judge(e, recorded).verdict.Present? && !e.action.Recreating? && e.instanceID != ""
    && (|| (e.name in recorded && recorded[e.name].externalAddress == "")
        || e.instanceID != (if e.name in recorded then recorded[e.name].instanceID else "")
        || e.name in refresh)
  }

  /** A detail read that succeeds and still names the listed instance. */
  predicate Answers(e: Entry, instances: string -> Instance) {
    instances(e.name).Instance? && instances(e.name).id == e.instanceID
  }

  /** A listing is usable as a whole or not at all: one failed or mismatched detail read voids it. */
  method List(entries: seq<Entry>, recorded: map<string, Recorded>, refresh: set<string>, instances: string -> Instance)
    returns (r: Option<Snapshot>)
    ensures r.Some? <==> forall e :: e in entries && WantsDetail(e, recorded, refresh) ==> Answers(e, instances)
    ensures r.Some? ==> |r.value.members| == |entries|
    ensures r.Some? ==> forall i :: 0 <= i < |entries| ==> r.value.members[i] == Judge(entries[i], recorded)
    ensures r.Some? ==> forall n :: n in r.value.details <==>
            exists e :: e in entries && e.name == n && WantsDetail(e, recorded, refresh)
    ensures r.Some? ==> forall n :: n in r.value.details ==>
            instances(n).Instance? && r.value.details[n] == instances(n).externalAddress
  {
    var members: seq<Listed> := [];
    var fetches: seq<Entry> := [];
    for i := 0 to |entries|
      invariant |members| == i && forall k :: 0 <= k < i ==> members[k] == Judge(entries[k], recorded)
      invariant forall e :: e in fetches <==> e in entries[..i] && WantsDetail(e, recorded, refresh)
    {
      members := members + [Judge(entries[i], recorded)];
      assert entries[..i + 1] == entries[..i] + [entries[i]];
      if WantsDetail(entries[i], recorded, refresh) {
        fetches := fetches + [entries[i]];
      }
    }
    assert entries[..|entries|] == entries;
    var details: map<string, string> := map[];
    for i := 0 to |fetches|
      invariant forall n :: n in details <==> exists k :: 0 <= k < i && fetches[k].name == n
      invariant forall n :: n in details ==> instances(n).Instance? && details[n] == instances(n).externalAddress
      invariant forall k :: 0 <= k < i ==> Answers(fetches[k], instances)
    {
      if !Answers(fetches[i], instances) {
        assert fetches[i] in fetches;
        return None;
      }
      details := details[fetches[i].name := instances(fetches[i].name).externalAddress];
    }
    forall n ensures n in details <==> exists e :: e in entries && e.name == n && WantsDetail(e, recorded, refresh) {
      if n in details {
        var k :| 0 <= k < |fetches| && fetches[k].name == n;
        assert fetches[k] in fetches;
      }
      if e :| e in entries && e.name == n && WantsDetail(e, recorded, refresh) {
        assert e in fetches;
      }
    }
    return Some(Snapshot(members, details));
  }
}
