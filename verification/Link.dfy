/** The SimBricks channel, as far as either party relies on it. The SimBricks headers are not part of
    this model's sources, so this module is the contract that everything else rests on:

    - a message is stamped with the sender's current time plus the link latency, and sending it records
      the current time as the sender's last-out time;
    - a sync message is owed from last-out plus the sync interval on;
    - messages are handed over in order and, when synchronized, only once their stamp is due;
    - polling refreshes the in-timestamp with the newest header it saw, consumed or not. */
module Link {
  datatype Option<+T> = None | Some(value: T)

  datatype Msg<+B> = Msg(stamp: nat, body: B)

  /** The sending parameters of one side, in picoseconds. */
  datatype Wire = Wire(latency: nat, interval: nat)

  /** One side's end of the link. `stamps` records the stamp of every message this side ever sent. */
  datatype Port = Port(now: nat, lastOut: nat, inTs: nat, stamps: seq<nat>)

  function Stamped<B>(w: Wire, p: Port, body: B): Msg<B> {
    Msg(p.now + w.latency, body)
  }

  function AfterSend(w: Wire, p: Port): Port {
    p.(lastOut := p.now, stamps := p.stamps + [p.now + w.latency])
  }

  predicate SyncOwed(sync: bool, w: Wire, p: Port) {
    sync && p.now >= p.lastOut + w.interval
  }

  /** Whether a poll hands over the first message of `q`. */
  predicate Due<B>(sync: bool, p: Port, q: seq<Msg<B>>) {
    q != [] && (!sync || q[0].stamp <= p.now)
  }

  function Peeked<B>(p: Port, q: seq<Msg<B>>): Port {
    if q == [] then p else p.(inTs := q[0].stamp)
  }

  /** The next time at which this side must stop: a message falls due or a sync is owed. */
  function Deadline(w: Wire, p: Port): nat {
    var nextSync := p.lastOut + w.interval;
    if p.inTs <= nextSync then p.inTs else nextSync
  }

  function Later(a: nat, b: nat): nat {
    if a < b then b else a
  }

  function Earlier(a: nat, b: nat): nat {
    if a < b then a else b
  }
}
