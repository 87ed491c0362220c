/** The publisher's in-process guard: versions only go up. */
module ConnInfoPublishers {
  import opened Options
  import opened Text
  import opened Platform
  import ConnInfoPayloads
  import opened ConnInfos

  /** One call: the payload without its counter, K, the version, the random nonce, and whether Tower
      accepts the post. */
  datatype PublishCall = PublishCall(payload: ConnInfoPayloads.ConnInfo, connInfoKey: Bytes, version: int, nonce: Bytes,
                                     posted: bool)

  datatype Config = Config(serverPub: Bytes, serverPriv: Bytes)

  function Numbered(c: PublishCall): ConnInfoPayloads.ConnInfo {
    c.payload.(rotationCounter := c.version)
  }

  function SealedFor(p: Platform, cfg: Config, c: PublishCall): Outcome<Published> {
    SealServerConnInfo(p, Numbered(c), c.connInfoKey, cfg.serverPub, cfg.serverPriv, c.version, c.nonce)
  }

  /** A guard that fails, a seal that throws and a failed post all leave as an exception. */
  function PublishOutcome(p: Platform, cfg: Config, last: int, c: PublishCall): Outcome<Published> {
    if c.version < 0 || c.version <= last || !c.posted then Threw else SealedFor(p, cfg, c)
  }

  class ConnInfoPublisher {
    const p: Platform
    const cfg: Config
    var lastPublishedVersion: int

    constructor (p: Platform, cfg: Config)
      ensures this.p == p && this.cfg == cfg && lastPublishedVersion == -1
    {
      this.p := p;
      this.cfg := cfg;
      lastPublishedVersion := -1;
    }

    method Publish(c: PublishCall) returns (r: Outcome<Published>)
      modifies this
      ensures r == PublishOutcome(p, cfg, old(lastPublishedVersion), c)
      ensures lastPublishedVersion == if r.Returned? then c.version else old(lastPublishedVersion)
    {
      if c.version < 0 {
        return Threw;
      }
      if c.version <= lastPublishedVersion {
        return Threw;
      }
      var sealed := SealServerConnInfo(p, c.payload.(rotationCounter := c.version), c.connInfoKey, cfg.serverPub,
                                       cfg.serverPriv, c.version, c.nonce);
      if sealed.Threw? {
        return Threw;
      }
      if !c.posted {
        return Threw;
      }
      lastPublishedVersion := c.version;
      return sealed;
    }
  }

  // ----- runs of calls that do not overlap -----

  function PublishAll(p: Platform, cfg: Config, last: int, cs: seq<PublishCall>): (int, seq<Outcome<Published>>) {
    if cs == [] then (last, [])
    else
      var n := |cs| - 1;
      var (l, rs) := PublishAll(p, cfg, last, cs[..n]);
      var r := PublishOutcome(p, cfg, l, cs[n]);
      (if r.Returned? then cs[n].version else l, rs + [r])
  }

  ghost predicate Increasing(cs: seq<PublishCall>, rs: seq<Outcome<Published>>) {
    && |rs| == |cs|
    && forall i, j :: 0 <= i < j < |rs| && rs[i].Returned? && rs[j].Returned? ==> cs[i].version < cs[j].version
  }

  ghost predicate Bounds(last: int, l: int, cs: seq<PublishCall>, rs: seq<Outcome<Published>>) {
    && |rs| == |cs| && last <= l
    && forall i :: 0 <= i < |rs| && rs[i].Returned? ==> last < cs[i].version <= l
  }

  lemma OneMore(last: int, l: int, cs: seq<PublishCall>, rs: seq<Outcome<Published>>, c: PublishCall,
                r: Outcome<Published>)
    requires Increasing(cs, rs) && Bounds(last, l, cs, rs) && (r.Returned? ==> c.version > l)
    ensures Increasing(cs + [c], rs + [r])
    ensures Bounds(last, if r.Returned? then c.version else l, cs + [c], rs + [r])
  {
  }

  /** Whatever fails in between, the versions that are published go strictly up. */
  lemma {:induction false} PublishedVersionsIncrease(p: Platform, cfg: Config, last: int, cs: seq<PublishCall>)
    ensures Increasing(cs, PublishAll(p, cfg, last, cs).1)
    ensures Bounds(last, PublishAll(p, cfg, last, cs).0, cs, PublishAll(p, cfg, last, cs).1)
  {
    if cs != [] {
      var n := |cs| - 1;
      var (l, rs) := PublishAll(p, cfg, last, cs[..n]);
      PublishedVersionsIncrease(p, cfg, last, cs[..n]);
      OneMore(last, l, cs[..n], rs, cs[n], PublishOutcome(p, cfg, l, cs[n]));
      assert cs == cs[..n] + [cs[n]];
    }
  }

  /** A publish goes through exactly for a version that is not negative and above the last one published,
      with keys and nonce of the right length, and a post that Tower accepts; it then carries its version. */
  lemma PublishesExactly(p: Platform, cfg: Config, last: int, c: PublishCall)
    ensures var r := PublishOutcome(p, cfg, last, c);
      && (r.Returned? <==>
            && c.version >= 0 && c.version > last && c.posted
            && |c.connInfoKey| == |cfg.serverPub| == |cfg.serverPriv| == 32 && |c.nonce| == 12)
      && (r.Returned? ==> r.value.body.version == c.version && r.value.body.serverPubKey == HexEncode(cfg.serverPub))
  {
  }

  /** Every record handed to Tower, posted or not, opens under its K to the payload it numbers, and its
      signature verifies: a rotation mismatch cannot occur. */
  lemma SealedRecordsOpen(p: Platform, serverPriv: Bytes, c: PublishCall)
    requires Lawful(p) && ConnInfoPayloads.DistinctPaths(c.payload)
    requires SealedFor(p, Config(p.edPub(serverPriv), serverPriv), c).Returned?
    ensures var r := SealedFor(p, Config(p.edPub(serverPriv), serverPriv), c).value;
      && r.body.version == c.version
      && OpenServerConnInfo(p, r.body, c.connInfoKey) ==
           Returned(OpenedPayload(c.payload.(rotationCounter := c.version)))
      && VerifyConnInfoRecordSig(p, r) == Returned(true)
  {
    SealOpens(p, Numbered(c), c.connInfoKey, serverPriv, c.version, c.nonce);
  }

  /** A version whose post failed can be tried again, and only a higher one than the last success can. */
  lemma RetryAfterFailedPost(p: Platform, cfg: Config, last: int, cs: seq<PublishCall>, c: PublishCall)
    requires !c.posted
    ensures var retry := c.(posted := true);
      PublishAll(p, cfg, last, cs + [c, retry]).1 ==
      PublishAll(p, cfg, last, cs).1 + [Threw, PublishOutcome(p, cfg, PublishAll(p, cfg, last, cs).0, retry)]
  {
    var retry := c.(posted := true);
    assert (cs + [c, retry])[..|cs| + 1] == cs + [c];
    assert (cs + [c])[..|cs|] == cs;
  }
}
