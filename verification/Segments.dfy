/**
 The handlers of module App are the transitions of module Interleaving: what a handler does up to its
 suspension is a Begin, what it does after it is an End, whatever other tasks did in between; a
 request that is turned away before the limiter is no transition at all.
 */
module Segments {
  import opened Options
  import opened Bytes
  import opened RateLimit
  import opened Minting
  import opened Replies
  import opened App
  import opened Interleaving

  /** How a mint found the service at its start (v) and when it went on (w), and what it made of them. */
  lemma MintRefines(s: Service, req: MintRequest, token: Token, host: Host, now: real, later: real, v: World, w: World,
                    id: nat, pause: Option<Pause>, after: Table, reply: Reply, launched: Option<Launch>)
    requires s.MintEnds(req, token, host, now, later, v.table, pause, after, reply, launched)
    requires v.now <= now && id !in v.running
    requires w.now <= later && id in w.running && w.running[id] == Task(JobOf(req), req.username)
    ensures var begin := Begin(id, Task(JobOf(req), req.username), now);
            match pause
            case Some(Pause(suspended, resumed)) =>
              && Step(s.limiter.limits, v, begin) == World(suspended, v.running[id := begin.task], now)
              && (w.table == resumed ==>
                    Step(s.limiter.limits, w, End(id, host, later)) == World(after, w.running - {id}, later))
            case None =>
              if reply.Http? && reply.status == 429
              then Step(s.limiter.limits, v, begin) == World(after, v.running, now)
              else after == v.table
  {
  }

  /** The same for a keytab request. */
  lemma KeytabRefines(s: Service, username: string, password: seq<byte>, token: Token, host: Host, now: real,
                      later: real, v: World, w: World, id: nat, pause: Option<Pause>, after: Table, reply: Reply,
                      launched: Option<Launch>)
    requires s.KeytabEnds(username, password, token, host, now, later, v.table, pause, after, reply, launched)
    requires v.now <= now && id !in v.running
    requires w.now <= later && id in w.running && w.running[id] == Task(Bootstrap, username)
    ensures var begin := Begin(id, Task(Bootstrap, username), now);
            match pause
            case Some(Pause(suspended, resumed)) =>
              && Step(s.limiter.limits, v, begin) == World(suspended, v.running[id := begin.task], now)
              && (w.table == resumed ==>
                    Step(s.limiter.limits, w, End(id, host, later)) == World(after, w.running - {id}, later))
            case None =>
              if reply.Http? && reply.status == 429
              then Step(s.limiter.limits, v, begin) == World(after, v.running, now)
              else after == v.table
  {
  }
}
