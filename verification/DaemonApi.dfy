/** The local app API: registration, inbox, discovery (hub/internal/daemonapi/daemonapi.go). */
module DaemonApi {
  import opened Mesh
  import opened Lww
  import opened BanList
  import opened AppPresence

  datatype Session = Session(node: NodeId, app: string, name: string, version: string)

  datatype RegisterReply = Registered(token: string) | AppIdRequired | AppBanned

  datatype ReceiveReply = Unauthorized | NoContent | Payload(bytes: seq<int>)

  datatype DiscoverReply = NoSession | AppIdMissing | Peers(ids: seq<NodeId>)

  class Server {
    const self: NodeId
    const apps: PresenceStore
    const bans: BanStore
    var sessions: map<string, Session>
    var inbox: map<NodeId, seq<seq<int>>>

    constructor (self: NodeId, apps: PresenceStore, bans: BanStore)
      ensures this.self == self && this.apps == apps && this.bans == bans
      ensures sessions == map[] && inbox == map[]
    {
      this.self, this.apps, this.bans := self, apps, bans;
      sessions, inbox := map[], map[];
    }

    function InboxOf(node: NodeId): seq<seq<int>>
      reads this
    {
      if node in inbox then inbox[node] else []
    }

    predicate Known(token: string)
      reads this
    {
      token != "" && token in sessions
    }

    method DeliverLocal(src: NodeId, dst: NodeId, payload: seq<int>) returns (ok: bool)
      modifies this`inbox
      ensures ok <==> dst == self
      ensures inbox == if ok then old(inbox)[dst := old(InboxOf(dst)) + [payload]] else old(inbox)
    {
      if dst != self {
        return false;
      }
      inbox := inbox[dst := InboxOf(dst) + [payload]];
      return true;
    }

    /** Takes the oldest payload out of the inbox. An empty one is taken out too, but answered as if
        there were none. */
    method HandleReceive(token: string) returns (reply: ReceiveReply)
      modifies this`inbox
      ensures !Known(token) ==> reply == Unauthorized && inbox == old(inbox)
      ensures Known(token) ==>
                var queue := old(InboxOf(sessions[token].node));
                && InboxOf(sessions[token].node) == (if queue == [] then [] else queue[1..])
                && (forall n :: n != sessions[token].node ==> InboxOf(n) == old(InboxOf(n)))
                && reply == (if queue != [] && queue[0] != [] then Payload(queue[0]) else NoContent)
    {
      if token == "" || token !in sessions {
        return Unauthorized;
      }
      var node := sessions[token].node;
      var queue := InboxOf(node);
      var payload: seq<int> := [];
      if |queue| > 0 {
        payload := queue[0];
        inbox := inbox[node := queue[1..]];
      }
      if payload == [] {
        return NoContent;
      }
      return Payload(payload);
    }

    /** No registration of a banned version succeeds, and a refusal leaves no trace. */
    method HandleRegister(app: string, name: string, version: string, token: string, now: int) returns (reply: RegisterReply)
      modifies this`sessions, apps
      ensures reply.Registered? <==> app != "" && !Enforced(bans.bans, self, app, version)
      ensures reply.AppBanned? <==> app != "" && Enforced(bans.bans, self, app, version)
      ensures reply.Registered? ==>
                && sessions == old(sessions)[token := Session(self, app, name, version)]
                && apps.apps == old(apps.apps)[(self, app) := Stamped(now, App(name, version))]
      ensures !reply.Registered? ==> sessions == old(sessions) && apps.apps == old(apps.apps)
    {
      if app == "" {
        return AppIdRequired;
      }
      var blocked := bans.IsLocallyEnforced(self, app, version);
      if blocked {
        return AppBanned;
      }
      var _ := apps.Upsert(self, app, Stamped(now, App(name, version)));
      sessions := sessions[token := Session(self, app, name, version)];
      return Registered(token);
    }

    /** The answer is exactly the nodes whose recorded version meets the constraint and is not
        covered by a ban this hub enforces, each once. */
    method HandleDiscoverPeers(token: string, app: string, constraint: string) returns (reply: DiscoverReply)
      ensures reply.NoSession? <==> !Known(token)
      ensures reply.Peers? <==> Known(token) && app != ""
      ensures reply.Peers? ==>
                && Distinct(reply.ids)
                && forall n :: n in reply.ids <==>
                     Runs(apps.apps, n, app, constraint) &&
                     !Enforced(bans.bans, self, app, apps.apps[(n, app)].body.version)
    {
      if token == "" || token !in sessions {
        return NoSession;
      }
      if app == "" {
        return AppIdMissing;
      }
      var peers := apps.DiscoverPeers(app, constraint);
      var out: seq<NodeId> := [];
      for k := 0 to |peers|
        invariant Distinct(out)
        invariant forall n :: n in out <==>
                    n in peers[..k] && (n, app) in apps.apps &&
                    !Enforced(bans.bans, self, app, apps.apps[(n, app)].body.version)
      {
        var p := peers[k];
        assert p in peers && p !in peers[..k];
        assert peers[..k + 1] == peers[..k] + [p];
        var rec := apps.Get(p, app);
        var blocked := bans.IsLocallyEnforced(self, app, rec.value.body.version);
        if blocked {
          continue;
        }
        out := out + [p];
      }
      assert peers[..|peers|] == peers;
      return Peers(out);
    }
  }
}
