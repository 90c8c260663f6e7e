/** The controller's satellite update caller: after a resource definition
    changes, every satellite holding one of its resources is asked to apply
    the change, each reply is turned into API call responses tagged with the
    node name, and all reply streams are merged into one stream of
    (node, response) items. Failures carried as ApiRcException become
    ordinary items, and the merged stream then ends with one
    DelayedApiRcException.

    Reactor's asynchronous merge is modelled over an explicit interleaving:
    a sequence of source indices naming which source delivers its next
    signal. */
module SatelliteUpdate {
  import opened Wrappers

  // Responses

  /** One key/value entry of a LinStor map on the wire. */
  datatype MapEntry = MapEntry(key: string, value: string)

  /** One MsgApiCallResponse frame of a satellite's reply. */
  datatype Frame = Frame(
    retCode: int,
    message: string,
    cause: string,
    correction: string,
    details: string,
    objRefs: seq<MapEntry>)

  /** One ApiCallRcEntry. */
  datatype RcEntry = RcEntry(
    retCode: int,
    message: string,
    cause: string,
    correction: string,
    details: string,
    objRefs: map<string, string>)

  /** An ApiCallRc: either the entries deserialised from a reply, or one of
      the canned responses the controller builds itself (their text comes
      from ResponseUtils, which is not part of this model). */
  datatype ApiCallRc =
    | Entries(entries: seq<RcEntry>)
    | FullSyncFailedResponse(node: string)
    | NotConnectedWarning(node: string)

  /** The runtime errors that are not ApiRcException. */
  datatype Fault =
    | DuplicateKey        // Collectors.toMap on a repeated key
    | Unexpected(name: string)

  predicate DistinctKeys(entries: seq<MapEntry>) {
    forall i, j :: 0 <= i < j < |entries| ==> entries[i].key != entries[j].key
  }

  predicate KeyIn(entries: seq<MapEntry>, key: string) {
    exists i :: 0 <= i < |entries| && entries[i].key == key
  }

  /** The entries collected into a map, a later entry overriding an earlier
      one with the same key. */
  function MapOf(entries: seq<MapEntry>): map<string, string> {
    if entries == [] then map[]
    else
      var last := entries[|entries| - 1];
      MapOf(entries[..|entries| - 1])[last.key := last.value]
  }

  /** readLinStorMap: the entries collected into a map, which fails on a
      repeated key because no merge function is given. */
  function ReadLinStorMap(entries: seq<MapEntry>): (r: Option<map<string, string>>)
    ensures r.Some? <==> DistinctKeys(entries)
    ensures r.Some? ==> forall key :: key in r.value <==> KeyIn(entries, key)
    ensures r.Some? ==> forall i :: 0 <= i < |entries| ==>
      entries[i].key in r.value && r.value[entries[i].key] == entries[i].value
  {
    MapOfKeys(entries);
    if DistinctKeys(entries) then
      MapOfValues(entries);
      Some(MapOf(entries))
    else None
  }

  /** The map holds exactly the keys of the entries. */
  lemma {:induction false} MapOfKeys(entries: seq<MapEntry>)
    ensures forall key :: key in MapOf(entries) <==> KeyIn(entries, key)
  {
    if entries != [] {
      var last := entries[|entries| - 1];
      var init := entries[..|entries| - 1];
      MapOfKeys(init);
      forall key
        ensures key in MapOf(entries) <==> KeyIn(entries, key)
      {
        KeyInSnoc(init, last, key);
        assert entries == init + [last];
      }
    }
  }

  lemma KeyInSnoc(init: seq<MapEntry>, last: MapEntry, key: string)
    ensures KeyIn(init + [last], key) <==> KeyIn(init, key) || last.key == key
  {
    var entries := init + [last];
    if KeyIn(init, key) {
      var i :| 0 <= i < |init| && init[i].key == key;
      assert entries[i] == init[i];
    }
    if last.key == key {
      assert entries[|init|] == last;
    }
    if KeyIn(entries, key) {
      var i :| 0 <= i < |entries| && entries[i].key == key;
      if i < |init| {
        assert entries[i] == init[i];
      }
    }
  }

  /** With distinct keys, every entry's value is kept. */
  lemma {:induction false} MapOfValues(entries: seq<MapEntry>)
    requires DistinctKeys(entries)
    ensures forall i :: 0 <= i < |entries| ==>
      entries[i].key in MapOf(entries) && MapOf(entries)[entries[i].key] == entries[i].value
  {
    if entries != [] {
      var last := entries[|entries| - 1];
      var init := entries[..|entries| - 1];
      assert entries == init + [last];
      DistinctSnocElim(init, last);
      MapOfValues(init);
      forall i | 0 <= i < |entries|
        ensures entries[i].key in MapOf(entries) && MapOf(entries)[entries[i].key] == entries[i].value
      {
        if i < |init| {
          assert entries[i] == init[i];
          assert init[i].key != last.key;
        }
      }
    }
  }

  /** A prefix of distinct-keyed entries has distinct keys, none equal to
      the next entry's. */
  lemma DistinctSnocElim(init: seq<MapEntry>, last: MapEntry)
    requires DistinctKeys(init + [last])
    ensures DistinctKeys(init) && !KeyIn(init, last.key)
  {
    var entries := init + [last];
    forall i, j | 0 <= i < j < |init|
      ensures init[i].key != init[j].key
    {
      assert entries[i] == init[i] && entries[j] == init[j];
    }
    forall i | 0 <= i < |init|
      ensures init[i].key != last.key
    {
      assert entries[i] == init[i] && entries[|init|] == last;
    }
  }

  /** The prefix that names the replying node in each message. */
  function NodePrefix(node: string): string {
    "(" + node + ") "
  }

  /** The entry for one frame of node's reply: the message is prefixed with
      the node name, the other fields are copied as they are. */
  function EntryOf(node: string, frame: Frame): (e: RcEntry)
    requires DistinctKeys(frame.objRefs)
    ensures |e.message| == |NodePrefix(node)| + |frame.message|
    ensures e.message[..|NodePrefix(node)|] == NodePrefix(node)
    ensures e.message[|NodePrefix(node)|..] == frame.message
    ensures e.retCode == frame.retCode && e.cause == frame.cause
    ensures e.correction == frame.correction && e.details == frame.details
    ensures forall i :: 0 <= i < |frame.objRefs| ==>
      frame.objRefs[i].key in e.objRefs && e.objRefs[frame.objRefs[i].key] == frame.objRefs[i].value
  {
    RcEntry(
      frame.retCode,
      NodePrefix(node) + frame.message,
      frame.cause,
      frame.correction,
      frame.details,
      ReadLinStorMap(frame.objRefs).value)
  }

  /** The ApiCallRc that one reply stream deserialises to: one entry per
      frame, in order; a frame with a repeated object reference key fails
      the whole stream. */
  function Deserialized(node: string, frames: seq<Frame>): (r: Result<seq<RcEntry>, Fault>)
    ensures r.Success? <==> forall i :: 0 <= i < |frames| ==> DistinctKeys(frames[i].objRefs)
    ensures r.Failure? ==> r.error == DuplicateKey
  {
    if frames == [] then Success([])
    else
      var init := frames[..|frames| - 1];
      var last := frames[|frames| - 1];
      assert forall i :: 0 <= i < |init| ==> init[i] == frames[i];
      match Deserialized(node, init)
      case Failure(e) => Failure(e)
      case Success(entries) =>
        if DistinctKeys(last.objRefs) then Success(entries + [EntryOf(node, last)])
        else Failure(DuplicateKey)
  }

  /** A stream that deserialises holds the entry of each frame, in frame
      order. */
  lemma {:induction false} DeserializedEntries(node: string, frames: seq<Frame>)
    requires Deserialized(node, frames).Success?
    ensures |Deserialized(node, frames).value| == |frames|
    ensures forall i :: 0 <= i < |frames| ==>
      Deserialized(node, frames).value[i] == EntryOf(node, frames[i])
  {
    if frames != [] {
      var init := frames[..|frames| - 1];
      assert forall i :: 0 <= i < |init| ==> init[i] == frames[i];
      DeserializedEntries(node, init);
    }
  }

  /** deserializeApiCallRc: reads the frames of one reply stream one by one
      and collects their entries. */
  method DeserializeApiCallRc(node: string, frames: seq<Frame>) returns (r: Result<ApiCallRc, Fault>)
    ensures r.Success? <==> Deserialized(node, frames).Success?
    ensures r.Success? ==> r.value == Entries(Deserialized(node, frames).value)
    ensures r.Failure? ==> r.error == DuplicateKey
  {
    var deploymentState: seq<RcEntry> := [];
    var i := 0;
    while i < |frames|
      invariant 0 <= i <= |frames|
      invariant Deserialized(node, frames[..i]) == Success(deploymentState)
    {
      assert frames[..i + 1][..i] == frames[..i];
      if !DistinctKeys(frames[i].objRefs) {
        assert !Deserialized(node, frames[..i + 1]).Success?;
        assert !Deserialized(node, frames).Success? by {
          assert frames[..i + 1][i] == frames[i];
        }
        return Failure(DuplicateKey);
      }
      deploymentState := deploymentState + [EntryOf(node, frames[i])];
      i := i + 1;
    }
    assert frames[..i] == frames;
    return Success(Entries(deploymentState));
  }

  // Sources

  /** How the satellite's API call stream terminated after its replies. */
  datatype CallEnd = Done | PeerNotConnected | CallFailed(name: string)

  /** The satellite side of one resource: the node's peer state and what
      its API call stream delivers. */
  datatype Peer = Peer(connected: bool, fullSyncFailed: bool)
  datatype Rsc = Rsc(node: string, peer: Peer, replies: seq<seq<Frame>>, callEnd: CallEnd)

  /** How a response source terminates. */
  datatype End = Complete | ApiRcError(rc: ApiCallRc) | OtherError(fault: Fault)

  /** One response source: the node it is tagged with, its items and its
      termination. */
  datatype Source = Source(node: string, items: seq<ApiCallRc>, end: End)

  /** The termination of a reply stream whose replies all deserialised:
      PeerNotConnectedException becomes the not-connected warning. */
  function EndOf(node: string, callEnd: CallEnd): (e: End)
    ensures e.ApiRcError? <==> callEnd == PeerNotConnected
    ensures e.ApiRcError? ==> e.rc == NotConnectedWarning(node)
    ensures e == Complete <==> callEnd == Done
  {
    match callEnd
    case Done => Complete
    case PeerNotConnected => ApiRcError(NotConnectedWarning(node))
    case CallFailed(name) => OtherError(Unexpected(name))
  }

  /** The response source of a connected peer's API call: one item per
      reply until a reply fails to deserialise, which ends the source with
      that error. */
  function ReplySource(node: string, replies: seq<seq<Frame>>, callEnd: CallEnd): (s: Source)
    ensures s.node == node && |s.items| <= |replies|
  {
    if replies == [] then Source(node, [], EndOf(node, callEnd))
    else
      match Deserialized(node, replies[0])
      case Failure(e) => Source(node, [], OtherError(e))
      case Success(entries) =>
        var rest := ReplySource(node, replies[1..], callEnd);
        Source(node, [Entries(entries)] + rest.items, rest.end)
  }

  /** Reply i delivered is the deserialised reply i. */
  predicate DeliversReply(node: string, reply: seq<Frame>, item: ApiCallRc) {
    Deserialized(node, reply).Success? && item == Entries(Deserialized(node, reply).value)
  }

  /** The items of a reply source are the replies deserialised in order. */
  lemma {:induction false} ReplySourceItems(node: string, replies: seq<seq<Frame>>, callEnd: CallEnd)
    ensures var s := ReplySource(node, replies, callEnd);
      forall i :: 0 <= i < |s.items| ==> DeliversReply(node, replies[i], s.items[i])
  {
    if replies != [] && Deserialized(node, replies[0]).Success? {
      ReplySourceItems(node, replies[1..], callEnd);
      var s := ReplySource(node, replies, callEnd);
      var rest := ReplySource(node, replies[1..], callEnd);
      assert s.items == [Entries(Deserialized(node, replies[0]).value)] + rest.items;
      forall i | 0 <= i < |s.items|
        ensures DeliversReply(node, replies[i], s.items[i])
      {
        if i > 0 {
          assert s.items[i] == rest.items[i - 1] && replies[i] == replies[1..][i - 1];
        }
      }
    }
  }

  /** A reply source stops early exactly at the first reply that fails,
      with that error, and otherwise ends as the API call stream did. */
  lemma {:induction false} ReplySourceEnd(node: string, replies: seq<seq<Frame>>, callEnd: CallEnd)
    ensures var s := ReplySource(node, replies, callEnd);
      |s.items| < |replies| ==> Deserialized(node, replies[|s.items|]).Failure? && s.end == OtherError(DuplicateKey)
    ensures var s := ReplySource(node, replies, callEnd);
      |s.items| == |replies| ==> s.end == EndOf(node, callEnd)
  {
    if replies != [] && Deserialized(node, replies[0]).Success? {
      ReplySourceEnd(node, replies[1..], callEnd);
      var s := ReplySource(node, replies, callEnd);
      var rest := ReplySource(node, replies[1..], callEnd);
      assert |s.items| == 1 + |rest.items| && s.end == rest.end;
      if |s.items| < |replies| {
        assert replies[|s.items|] == replies[1..][|rest.items|];
      }
    }
  }

  /** updateResource: a connected peer whose full sync failed is not
      called; its source is one ApiRcException with the full-sync-failed
      response. Any other peer is called. */
  function UpdateResource(rsc: Rsc): (s: Source)
    ensures s.node == rsc.node
    ensures rsc.peer.connected && rsc.peer.fullSyncFailed ==>
      s.items == [] && s.end == ApiRcError(FullSyncFailedResponse(rsc.node))
    ensures !(rsc.peer.connected && rsc.peer.fullSyncFailed) ==>
      s == ReplySource(rsc.node, rsc.replies, rsc.callEnd)
  {
    if rsc.peer.connected && rsc.peer.fullSyncFailed then
      Source(rsc.node, [], ApiRcError(FullSyncFailedResponse(rsc.node)))
    else
      ReplySource(rsc.node, rsc.replies, rsc.callEnd)
  }

  // Merging

  /** A signal of a source as the merge sees it: an item, an ApiRcException
      (captured by onErrorResume) or any other error. */
  datatype Signal = Next(rc: ApiCallRc) | Captured(rc: ApiCallRc) | Fatal(fault: Fault)

  /** A signal tagged with the index and node of its source. */
  datatype Tagged = Tagged(src: nat, node: string, signal: Signal)

  /** The signals source k delivers, in order. */
  function SourceSignals(k: nat, s: Source): (ts: seq<Tagged>)
    ensures |ts| == |s.items| + (if s.end.Complete? then 0 else 1)
    ensures forall i :: 0 <= i < |ts| ==> ts[i].src == k && ts[i].node == s.node
    ensures forall i :: 0 <= i < |s.items| ==> ts[i].signal == Next(s.items[i])
    ensures s.end.ApiRcError? ==> ts[|s.items|].signal == Captured(s.end.rc)
    ensures s.end.OtherError? ==> ts[|s.items|].signal == Fatal(s.end.fault)
  {
    var items := seq(|s.items|, i requires 0 <= i < |s.items| => Tagged(k, s.node, Next(s.items[i])));
    match s.end
    case Complete => items
    case ApiRcError(rc) => items + [Tagged(k, s.node, Captured(rc))]
    case OtherError(f) => items + [Tagged(k, s.node, Fatal(f))]
  }

  /** The queues of signals of the sources, source k at index k. */
  function Queues(sources: seq<Source>): (qs: seq<seq<Tagged>>)
    ensures |qs| == |sources|
    ensures forall k :: 0 <= k < |sources| ==> qs[k] == SourceSignals(k, sources[k])
  {
    seq(|sources|, k requires 0 <= k < |sources| => SourceSignals(k, sources[k]))
  }

  /** The signals in the order the interleaving delivers them: each index
      takes the next signal of that source; an index of an exhausted or
      missing source delivers nothing. */
  function Interleave(order: seq<nat>, queues: seq<seq<Tagged>>): seq<Tagged>
    decreases |order|
  {
    if order == [] then []
    else
      var k := order[0];
      if k < |queues| && queues[k] != [] then
        [queues[k][0]] + Interleave(order[1..], queues[k := queues[k][1..]])
      else
        Interleave(order[1..], queues)
  }

  /** What each queue still holds after the interleaving. */
  function Remaining(order: seq<nat>, queues: seq<seq<Tagged>>): (rest: seq<seq<Tagged>>)
    ensures |rest| == |queues|
    decreases |order|
  {
    if order == [] then queues
    else
      var k := order[0];
      if k < |queues| && queues[k] != [] then
        Remaining(order[1..], queues[k := queues[k][1..]])
      else
        Remaining(order[1..], queues)
  }

  /** An interleaving that delivers every signal of every source. */
  predicate Exhausts(order: seq<nat>, queues: seq<seq<Tagged>>) {
    forall k :: 0 <= k < |queues| ==> Remaining(order, queues)[k] == []
  }

  /** Every signal in queue k is tagged with source k. */
  predicate TaggedBy(queues: seq<seq<Tagged>>) {
    forall k, i :: 0 <= k < |queues| && 0 <= i < |queues[k]| ==> queues[k][i].src == k
  }

  /** The signals of source k, in the order they appear. */
  function Project(ts: seq<Tagged>, k: nat): seq<Tagged> {
    if ts == [] then [] else (if ts[0].src == k then [ts[0]] else []) + Project(ts[1..], k)
  }

  lemma {:induction false} ProjectMembers(ts: seq<Tagged>, k: nat, t: Tagged)
    ensures t in Project(ts, k) <==> t in ts && t.src == k
  {
    if ts != [] {
      ProjectMembers(ts[1..], k, t);
      assert ts == [ts[0]] + ts[1..];
    }
  }

  /** The number of signals the queues hold. */
  function Total(queues: seq<seq<Tagged>>): nat {
    if queues == [] then 0 else |queues[0]| + Total(queues[1..])
  }

  lemma {:induction false} TotalUpdate(queues: seq<seq<Tagged>>, k: nat, q: seq<Tagged>)
    requires k < |queues|
    ensures Total(queues[k := q]) == Total(queues) - |queues[k]| + |q|
  {
    if k == 0 {
      assert queues[k := q][1..] == queues[1..];
    } else {
      assert queues[k := q][1..] == queues[1..][k - 1 := q];
      TotalUpdate(queues[1..], k - 1, q);
    }
  }

  lemma {:induction false} TotalEmpty(queues: seq<seq<Tagged>>)
    requires forall k :: 0 <= k < |queues| ==> queues[k] == []
    ensures Total(queues) == 0
  {
    if queues != [] {
      TotalEmpty(queues[1..]);
    }
  }

  /** Taking the head of a queue keeps every signal tagged with its queue. */
  lemma TaggedByTail(queues: seq<seq<Tagged>>, j: nat)
    requires TaggedBy(queues) && j < |queues| && queues[j] != []
    ensures TaggedBy(queues[j := queues[j][1..]])
  {
    var next: seq<seq<Tagged>> := queues[j := queues[j][1..]];
    forall k: int, i: int | 0 <= k < |next| && 0 <= i < |next[k]|
      ensures next[k][i].src == k
    {
      if k == j {
        assert next[k][i] == queues[j][i + 1];
      }
    }
  }

  lemma ProjectCons(h: Tagged, rest: seq<Tagged>, k: nat)
    ensures Project([h] + rest, k) == (if h.src == k then [h] else []) + Project(rest, k)
  {
    assert ([h] + rest)[1..] == rest;
  }

  /** Within each source the interleaving keeps the order of its signals:
      what it delivered of source k followed by what is left is the whole
      queue k. */
  lemma {:induction false} InterleaveKeepsOrder(order: seq<nat>, queues: seq<seq<Tagged>>, k: nat)
    requires TaggedBy(queues) && k < |queues|
    ensures Project(Interleave(order, queues), k) + Remaining(order, queues)[k] == queues[k]
    decreases |order|
  {
    if order != [] {
      var j := order[0];
      if j < |queues| && queues[j] != [] {
        var next := queues[j := queues[j][1..]];
        TaggedByTail(queues, j);
        InterleaveKeepsOrder(order[1..], next, k);
        var h := queues[j][0];
        var rest := Interleave(order[1..], next);
        assert Interleave(order, queues) == [h] + rest;
        assert Remaining(order, queues) == Remaining(order[1..], next);
        ProjectCons(h, rest, k);
        assert h.src == j;
        var left := Remaining(order[1..], next)[k];
        if j == k {
          assert Project(rest, k) + left == queues[k][1..];
          assert ([h] + Project(rest, k)) + left == [h] + (Project(rest, k) + left);
          assert queues[k] == [h] + queues[k][1..];
        } else {
          assert next[k] == queues[k];
        }
      } else {
        assert Interleave(order, queues) == Interleave(order[1..], queues);
        assert Remaining(order, queues) == Remaining(order[1..], queues);
        InterleaveKeepsOrder(order[1..], queues, k);
      }
    }
  }

  /** The interleaving delivers only signals of existing sources. */
  lemma {:induction false} InterleaveSources(order: seq<nat>, queues: seq<seq<Tagged>>)
    requires TaggedBy(queues)
    ensures forall t :: t in Interleave(order, queues) ==> t.src < |queues|
    decreases |order|
  {
    if order != [] {
      var j := order[0];
      if j < |queues| && queues[j] != [] {
        var next := queues[j := queues[j][1..]];
        TaggedByTail(queues, j);
        InterleaveSources(order[1..], next);
      } else {
        InterleaveSources(order[1..], queues);
      }
    }
  }

  /** Every signal is delivered at most once: what was delivered and what
      is left add up to all signals. */
  lemma {:induction false} InterleaveCount(order: seq<nat>, queues: seq<seq<Tagged>>)
    ensures |Interleave(order, queues)| + Total(Remaining(order, queues)) == Total(queues)
    decreases |order|
  {
    if order != [] {
      var j := order[0];
      if j < |queues| && queues[j] != [] {
        TotalUpdate(queues, j, queues[j][1..]);
        InterleaveCount(order[1..], queues[j := queues[j][1..]]);
      } else {
        InterleaveCount(order[1..], queues);
      }
    }
  }

  /** An exhaustive interleaving delivers exactly the signals of the
      sources. */
  lemma ExhaustiveMembers(order: seq<nat>, queues: seq<seq<Tagged>>, t: Tagged)
    requires TaggedBy(queues) && Exhausts(order, queues)
    ensures t in Interleave(order, queues) <==> t.src < |queues| && t in queues[t.src]
  {
    InterleaveSources(order, queues);
    if t.src < |queues| {
      InterleaveKeepsOrder(order, queues, t.src);
      ProjectMembers(Interleave(order, queues), t.src, t);
      assert Remaining(order, queues)[t.src] == [];
      assert Project(Interleave(order, queues), t.src) == queues[t.src];
    }
  }

  /** The merged stream: its (node, response) items and how it ends. */
  datatype MergedEnd = Completed | DelayedApiRcException | Errored(fault: Fault)
  datatype Merged = Merged(items: seq<(string, ApiCallRc)>, end: MergedEnd)

  predicate HasFatal(signals: seq<Tagged>) {
    exists i :: 0 <= i < |signals| && signals[i].signal.Fatal?
  }

  predicate HasCaptured(signals: seq<Tagged>) {
    exists i :: 0 <= i < |signals| && signals[i].signal.Captured?
  }

  /** mergeExtractingApiRcExceptions over the delivered signals: items pass
      through, a captured ApiRcException becomes an ordinary item and sets
      hasError, any other error ends the merged stream at once; after the
      last signal the stream ends with DelayedApiRcException exactly when
      hasError is set. */
  function MergeSignals(signals: seq<Tagged>, hasError: bool): (m: Merged)
    ensures |m.items| <= |signals|
    ensures forall i :: 0 <= i < |m.items| ==>
      !signals[i].signal.Fatal? && m.items[i] == (signals[i].node, signals[i].signal.rc)
    ensures !m.end.Errored? ==> |m.items| == |signals|
    ensures m.end.Errored? ==> |m.items| < |signals| && signals[|m.items|].signal == Fatal(m.end.fault)
  {
    if signals == [] then Merged([], if hasError then DelayedApiRcException else Completed)
    else
      var t := signals[0];
      match t.signal
      case Fatal(f) => Merged([], Errored(f))
      case Next(rc) =>
        var rest := MergeSignals(signals[1..], hasError);
        Merged([(t.node, rc)] + rest.items, rest.end)
      case Captured(rc) =>
        var rest := MergeSignals(signals[1..], true);
        Merged([(t.node, rc)] + rest.items, rest.end)
  }

  /** The merged stream fails with another error exactly when some source
      delivered one, and it ends with DelayedApiRcException exactly when no
      such error came and an ApiRcException was captured. */
  lemma {:induction false} MergeEnd(signals: seq<Tagged>, hasError: bool)
    ensures MergeSignals(signals, hasError).end.Errored? <==> HasFatal(signals)
    ensures MergeSignals(signals, hasError).end == DelayedApiRcException <==>
      !HasFatal(signals) && (hasError || HasCaptured(signals))
    ensures MergeSignals(signals, hasError).end == Completed <==>
      !HasFatal(signals) && !hasError && !HasCaptured(signals)
    decreases |signals|
  {
    if signals != [] && !signals[0].signal.Fatal? {
      var tail := signals[1..];
      var flag := hasError || signals[0].signal.Captured?;
      MergeEnd(tail, flag);
      assert HasFatal(signals) <==> HasFatal(tail) by {
        if HasFatal(signals) {
          var i :| 0 <= i < |signals| && signals[i].signal.Fatal?;
          assert tail[i - 1] == signals[i];
        }
        if HasFatal(tail) {
          var i :| 0 <= i < |tail| && tail[i].signal.Fatal?;
          assert signals[i + 1] == tail[i];
        }
      }
      assert hasError || HasCaptured(signals) <==> flag || HasCaptured(tail) by {
        if HasCaptured(signals) && !signals[0].signal.Captured? {
          var i :| 0 <= i < |signals| && signals[i].signal.Captured?;
          assert tail[i - 1] == signals[i];
        }
        if HasCaptured(tail) {
          var i :| 0 <= i < |tail| && tail[i].signal.Captured?;
          assert signals[i + 1] == tail[i];
        }
        if signals[0].signal.Captured? {
          assert signals[0].signal.Captured?;
        }
      }
    }
  }

  /** The merged stream of the given sources under the given interleaving. */
  function MergeExtractingApiRcExceptions(sources: seq<Source>, order: seq<nat>): Merged {
    MergeSignals(Interleave(order, Queues(sources)), false)
  }

  /** updateSatellites: one response source per resource of the definition,
      tagged with the resource's node, merged under the given interleaving. */
  method UpdateSatellites(rscs: seq<Rsc>, order: seq<nat>) returns (m: Merged)
    ensures m == MergeExtractingApiRcExceptions(seq(|rscs|, i requires 0 <= i < |rscs| => UpdateResource(rscs[i])), order)
  {
    var responses: seq<Source> := [];
    var i := 0;
    while i < |rscs|
      invariant 0 <= i <= |rscs|
      invariant |responses| == i
      invariant forall j :: 0 <= j < i ==> responses[j] == UpdateResource(rscs[j]) && responses[j].node == rscs[j].node
    {
      responses := responses + [UpdateResource(rscs[i])];
      i := i + 1;
    }
    assert responses == seq(|rscs|, i requires 0 <= i < |rscs| => UpdateResource(rscs[i]));
    m := MergeExtractingApiRcExceptions(responses, order);
  }

  // What the merged stream promises

  /** The items a source contributes to the merged stream: its own items
      and, when it failed with an ApiRcException, one more. */
  function ItemCount(s: Source): nat {
    |s.items| + (if s.end.ApiRcError? then 1 else 0)
  }

  function ExpectedCount(sources: seq<Source>): nat {
    if sources == [] then 0 else ItemCount(sources[0]) + ExpectedCount(sources[1..])
  }

  lemma {:induction false} TotalOfQueues(queues: seq<seq<Tagged>>, sources: seq<Source>)
    requires |queues| == |sources|
    requires forall k :: 0 <= k < |sources| ==> !sources[k].end.OtherError? && |queues[k]| == ItemCount(sources[k])
    ensures Total(queues) == ExpectedCount(sources)
  {
    if sources != [] {
      TotalOfQueues(queues[1..], sources[1..]);
    }
  }

  /** The last signal of a source that failed is delivered. */
  lemma FinalSignalDelivered(sources: seq<Source>, order: seq<nat>, k: nat)
    requires Exhausts(order, Queues(sources))
    requires k < |sources| && !sources[k].end.Complete?
    ensures Queues(sources)[k][|sources[k].items|] in Interleave(order, Queues(sources))
  {
    assert TaggedBy(Queues(sources));
    ExhaustiveMembers(order, Queues(sources), Queues(sources)[k][|sources[k].items|]);
  }

  /** A delivered error signal comes from a source that ended that way. */
  lemma DeliveredSignalSource(sources: seq<Source>, order: seq<nat>, t: Tagged)
    requires Exhausts(order, Queues(sources))
    requires t in Interleave(order, Queues(sources))
    ensures t.src < |sources|
    ensures t.signal.Fatal? ==> sources[t.src].end.OtherError?
    ensures t.signal.Captured? ==> sources[t.src].end.ApiRcError?
  {
    var qs := Queues(sources);
    assert TaggedBy(qs);
    ExhaustiveMembers(order, qs, t);
    var j :| 0 <= j < |qs[t.src]| && qs[t.src][j] == t;
  }

  /** An exhaustive interleaving delivers another error exactly when some
      source ended with one. */
  lemma FatalSignals(sources: seq<Source>, order: seq<nat>)
    requires Exhausts(order, Queues(sources))
    ensures HasFatal(Interleave(order, Queues(sources))) <==>
      exists k :: 0 <= k < |sources| && sources[k].end.OtherError?
  {
    var signals := Interleave(order, Queues(sources));
    if HasFatal(signals) {
      var i :| 0 <= i < |signals| && signals[i].signal.Fatal?;
      DeliveredSignalSource(sources, order, signals[i]);
    }
    if exists k :: 0 <= k < |sources| && sources[k].end.OtherError? {
      var k :| 0 <= k < |sources| && sources[k].end.OtherError?;
      FinalSignalDelivered(sources, order, k);
      var i :| 0 <= i < |signals| && signals[i] == Queues(sources)[k][|sources[k].items|];
      assert signals[i].signal.Fatal?;
    }
  }

  /** An exhaustive interleaving delivers a captured ApiRcException exactly
      when some source failed with one. */
  lemma CapturedSignals(sources: seq<Source>, order: seq<nat>)
    requires Exhausts(order, Queues(sources))
    ensures HasCaptured(Interleave(order, Queues(sources))) <==>
      exists k :: 0 <= k < |sources| && sources[k].end.ApiRcError?
  {
    var signals := Interleave(order, Queues(sources));
    if HasCaptured(signals) {
      var i :| 0 <= i < |signals| && signals[i].signal.Captured?;
      DeliveredSignalSource(sources, order, signals[i]);
    }
    if exists k :: 0 <= k < |sources| && sources[k].end.ApiRcError? {
      var k :| 0 <= k < |sources| && sources[k].end.ApiRcError?;
      FinalSignalDelivered(sources, order, k);
      var i :| 0 <= i < |signals| && signals[i] == Queues(sources)[k][|sources[k].items|];
      assert signals[i].signal.Captured?;
    }
  }

  /** The merged stream ends with another error exactly when some source
      did; otherwise it ends with DelayedApiRcException exactly when some
      source failed with an ApiRcException, and completes when none did. */
  lemma MergedEnding(sources: seq<Source>, order: seq<nat>)
    requires Exhausts(order, Queues(sources))
    ensures MergeExtractingApiRcExceptions(sources, order).end.Errored? <==>
      exists k :: 0 <= k < |sources| && sources[k].end.OtherError?
    ensures MergeExtractingApiRcExceptions(sources, order).end == DelayedApiRcException <==>
      (forall k :: 0 <= k < |sources| ==> !sources[k].end.OtherError?) &&
      exists k :: 0 <= k < |sources| && sources[k].end.ApiRcError?
    ensures MergeExtractingApiRcExceptions(sources, order).end == Completed <==>
      forall k :: 0 <= k < |sources| ==> sources[k].end.Complete?
  {
    FatalSignals(sources, order);
    CapturedSignals(sources, order);
    MergeEnd(Interleave(order, Queues(sources)), false);
  }

  /** Without other errors, the merged stream carries every item of every
      source plus one item per source that failed with an ApiRcException,
      each tagged with its source's node. */
  lemma MergedCount(sources: seq<Source>, order: seq<nat>)
    requires Exhausts(order, Queues(sources))
    requires forall k :: 0 <= k < |sources| ==> !sources[k].end.OtherError?
    ensures |MergeExtractingApiRcExceptions(sources, order).items| == ExpectedCount(sources)
  {
    var qs := Queues(sources);
    MergedEnding(sources, order);
    InterleaveCount(order, qs);
    TotalEmpty(Remaining(order, qs));
    TotalOfQueues(qs, sources);
  }

  /** Within one source, the merge keeps the order of its signals. */
  lemma MergedKeepsSourceOrder(sources: seq<Source>, order: seq<nat>, k: nat)
    requires Exhausts(order, Queues(sources)) && k < |sources|
    ensures Project(Interleave(order, Queues(sources)), k) == SourceSignals(k, sources[k])
  {
    assert TaggedBy(Queues(sources));
    InterleaveKeepsOrder(order, Queues(sources), k);
    assert Remaining(order, Queues(sources))[k] == [];
  }
}
