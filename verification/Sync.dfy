/** Certificate sync between a server and a client on a prefix of the server's chain:
    every response makes progress, and repeated requests reach the server's tip. */
module Sync {
  import opened Basics
  import opened Messages
  import opened Quorum
  import opened Ledger
  import opened Runtime
  import opened History

  function TotalSize(certs: seq<FinalityCertificate>, size: FinalityCertificate -> nat): nat {
    if certs == [] then 0 else size(certs[0]) + TotalSize(certs[1..], size)
  }

  /** From a list that is all new, the response is a prefix, within both limits, and never
      empty unless the list is. */
  lemma {:induction false} TakeShape(certs: seq<FinalityCertificate>, size: FinalityCertificate -> nat,
                                     fromHeight: nat, seen: nat, bytes: nat, some: bool)
    requires seen <= MAX_SYNC_COUNT
    requires forall i :: 0 <= i < |certs| ==> certs[i].block.height >= fromHeight
    ensures var out := CertificatesFrom(certs, size, fromHeight, seen, bytes, some);
      && out <= certs
      && |out| + seen <= MAX_SYNC_COUNT
      && (!some && certs != [] && seen < MAX_SYNC_COUNT ==> out != [])
      && (some && out != [] ==> bytes + TotalSize(out, size) <= MAX_SYNC_BYTES)
      && (|out| >= 2 ==> bytes + TotalSize(out, size) <= MAX_SYNC_BYTES)
    decreases |certs|
  {
    if certs == [] || seen == MAX_SYNC_COUNT {
    } else if some && bytes + size(certs[0]) > MAX_SYNC_BYTES {
    } else {
      TakeShape(certs[1..], size, fromHeight, seen + 1, bytes + size(certs[0]), true);
      var rest := CertificatesFrom(certs[1..], size, fromHeight, seen + 1, bytes + size(certs[0]), true);
      var out := [certs[0]] + rest;
      assert out[1..] == rest;
      assert certs == [certs[0]] + certs[1..];
    }
  }

  /** The response ends only with the list, at the count limit, or where the next certificate
      would break the byte limit. */
  lemma {:induction false} TakeMaximal(certs: seq<FinalityCertificate>, size: FinalityCertificate -> nat,
                                       fromHeight: nat, seen: nat, bytes: nat, some: bool)
    requires seen <= MAX_SYNC_COUNT
    requires forall i :: 0 <= i < |certs| ==> certs[i].block.height >= fromHeight
    ensures var out := CertificatesFrom(certs, size, fromHeight, seen, bytes, some);
      || |out| >= |certs| || |out| + seen == MAX_SYNC_COUNT
      || bytes + TotalSize(out, size) + size(certs[|out|]) > MAX_SYNC_BYTES
    decreases |certs|
  {
    if certs == [] || seen == MAX_SYNC_COUNT {
    } else if some && bytes + size(certs[0]) > MAX_SYNC_BYTES {
    } else {
      TakeMaximal(certs[1..], size, fromHeight, seen + 1, bytes + size(certs[0]), true);
      var rest := CertificatesFrom(certs[1..], size, fromHeight, seen + 1, bytes + size(certs[0]), true);
      assert ([certs[0]] + rest)[1..] == rest;
    }
  }

  lemma {:induction false} SkipShape(certs: seq<FinalityCertificate>, size: FinalityCertificate -> nat, base: nat,
                                     k: nat)
    requires k <= |certs|
    requires forall i :: 0 <= i < |certs| ==> certs[i].block.height == base + i
    ensures CertificatesFrom(certs, size, base + k, 0, 0, false)
      == CertificatesFrom(certs[k..], size, base + k, 0, 0, false)
    decreases k
  {
    if k > 0 {
      SkipShape(certs[1..], size, base + 1, k - 1);
      assert certs[1..][k - 1..] == certs[k..];
    } else {
      assert certs[k..] == certs;
    }
  }

  ghost predicate SameRules(a: NodeConfig, b: NodeConfig) {
    a.crypto == b.crypto && a.validators == b.validators && a.schedule == b.schedule
  }

  lemma {:induction false} AcceptSameRules(a: NodeConfig, b: NodeConfig, s: ChainState, blocks: seq<Block>)
    requires SameRules(a, b) && s.HasTip()
    ensures AcceptAll(a, s, blocks) == AcceptAll(b, s, blocks)
    decreases |blocks|
  {
    if blocks != [] {
      assert AcceptBlock(a, s, blocks[0]) == AcceptBlock(b, s, blocks[0]);
      var r := AcceptBlock(a, s, blocks[0]);
      if r.Ok? {
        AcceptSameRules(a, b, r.value, blocks[1..]);
      }
    }
  }

  /** A client on a prefix of the server's chain can take over the server's next block. */
  lemma NextBlockAccepted(server: NodeConfig, client: NodeConfig, g: ChainState, s: ChainState, r: ChainState)
    requires SameRules(server, client) && Accepted(server, g, s) && Accepted(client, g, r)
    requires |r.blocks| < |s.blocks| && r.blocks == s.blocks[..|r.blocks|]
    ensures AcceptBlock(client, r, s.blocks[|r.blocks|]).Ok?
    ensures s.blocks[|r.blocks|].height == r.Tip().height + 1
  {
    var n := |r.blocks|;
    var rest := s.blocks[n..];
    assert s.blocks[1..] == r.blocks[1..] + rest;
    AcceptAppend(server, g, r.blocks[1..], rest);
    AcceptSameRules(server, client, g, r.blocks[1..]);
    AcceptSameRules(server, client, r, rest);
    assert AcceptAll(client, r, rest).Ok?;
    AcceptedHeights(server, g, s, n);
    AcceptedHeights(client, g, r, n - 1);
  }

  lemma {:induction false} FindByHeight(blocks: seq<Block>, base: nat, h: nat)
    requires forall i :: 0 <= i < |blocks| ==> blocks[i].height == base + i
    requires base <= h < base + |blocks|
    ensures BlockAtHeight(blocks, h) == Some(blocks[h - base])
    decreases |blocks|
  {
    if blocks[0].height != h {
      FindByHeight(blocks[1..], base + 1, h);
    }
  }

  /** A certificate goes through exactly when it verifies and either repeats a block of the
      chain or brings the next one, in time, on schedule and executable. A valid certificate
      against a block of the chain is reported as a violation of finality. */
  lemma SyncOneIff(cfg: NodeConfig, g: ChainState, s: RuntimeState, cert: FinalityCertificate, now: nat)
    requires HistoryInv(cfg, g, s)
    ensures var h, tip := cert.block.height, s.chain.Tip();
      var (t, r) := SyncOne(cfg, s, cert, now);
      && tip.height == |s.chain.blocks| - 1
      && (r.Ok? <==>
            && CertificateValid(cfg.crypto, cfg.validators, cert)
            && if h <= tip.height then s.chain.blocks[h].hash == cert.block.hash
               else h == tip.height + 1 && tip.timestamp <= cert.block.timestamp <= now + 30
                    && EventsFit(cfg, s.chain.executed, cert.block) && ApplyBlock(cfg.crypto, s.chain, cert.block).Ok?)
      && (r.Ok? ==> r.value == (h > tip.height))
      && (CertificateValid(cfg.crypto, cfg.validators, cert) && h <= tip.height && r.Err? ==>
            r.error == FinalityViolation && t == s)
  {
    AcceptedHeights(cfg, g, s.chain, |s.chain.blocks| - 1);
    if cert.block.height <= s.chain.Tip().height {
      KnownHeight(cfg, g, s, cert.block.height);
      SyncKnown(cfg, s, cert, now);
    } else {
      SyncAhead(cfg, s, cert, now);
    }
  }

  lemma KnownHeight(cfg: NodeConfig, g: ChainState, s: RuntimeState, h: nat)
    requires HistoryInv(cfg, g, s) && h < |s.chain.blocks|
    ensures BlockAtHeight(s.chain.blocks, h) == Some(s.chain.blocks[h])
  {
    forall i | 0 <= i < |s.chain.blocks| ensures s.chain.blocks[i].height == 0 + i {
      AcceptedHeights(cfg, g, s.chain, i);
    }
    FindByHeight(s.chain.blocks, 0, h);
  }

  lemma SyncKnown(cfg: NodeConfig, s: RuntimeState, cert: FinalityCertificate, now: nat)
    requires s.chain.HasTip() && cert.block.height <= s.chain.Tip().height
    requires cert.block.height < |s.chain.blocks|
    requires BlockAtHeight(s.chain.blocks, cert.block.height) == Some(s.chain.blocks[cert.block.height])
    ensures SyncOne(cfg, s, cert, now) ==
      if !CertificateValid(cfg.crypto, cfg.validators, cert) then (s, Err(BadCertificate))
      else if s.chain.blocks[cert.block.height].hash == cert.block.hash then (s, Ok(false))
      else (s, Err(FinalityViolation))
  {
  }

  lemma SyncAhead(cfg: NodeConfig, s: RuntimeState, cert: FinalityCertificate, now: nat)
    requires s.chain.HasTip() && cert.block.height > s.chain.Tip().height
    ensures var (t, r) := SyncOne(cfg, s, cert, now);
      && (r.Ok? ==> r.value)
      && (r.Ok? <==>
            && CertificateValid(cfg.crypto, cfg.validators, cert) && cert.block.height == s.chain.Tip().height + 1
            && s.chain.Tip().timestamp <= cert.block.timestamp <= now + 30
            && EventsFit(cfg, s.chain.executed, cert.block) && ApplyBlock(cfg.crypto, s.chain, cert.block).Ok?)
  {
  }

  ghost predicate ClientInv(client: NodeConfig, g: ChainState, r: RuntimeState) {
    HistoryInv(client, g, r) && r.bft.height <= r.chain.Tip().height + 1
  }

  /** Applying the server's certificate for the next height extends the client by that block
      and starts the height after it. */
  lemma SyncNext(server: NodeConfig, client: NodeConfig, g: ChainState, s: RuntimeState, r: RuntimeState, now: nat)
    requires SameRules(server, client) && HistoryInv(server, g, s) && ClientInv(client, g, r)
    requires |r.chain.blocks| < |s.chain.blocks| && r.chain.blocks == s.chain.blocks[..|r.chain.blocks|]
    requires InTime(s.chain.blocks[|r.chain.blocks|], now)
    ensures var cert := s.finalized[|r.chain.blocks| - 1];
      var (t, applied) := ApplySyncCertificates(client, r, [cert], now);
      && applied == Ok(1)
      && t.chain.blocks == s.chain.blocks[..|r.chain.blocks| + 1]
      && ClientInv(client, g, t)
  {
    var n := |r.chain.blocks|;
    var cert := s.finalized[n - 1];
    assert cert in s.finalized && cert.block == s.chain.blocks[n];
    NextBlockAccepted(server, client, g, s.chain, r.chain);
    SyncHistory(client, g, r, [cert], now);
    var t := SyncOneTakes(client, r, cert, now);
    SyncAllOne(client, r, cert, now, t);
    EntersNext(client, r, cert, now, t);
    TakeNext(s.chain.blocks, n);
  }

  lemma SyncOneTakes(client: NodeConfig, r: RuntimeState, cert: FinalityCertificate, now: nat) returns (t: RuntimeState)
    requires r.chain.HasTip() && CertificateValid(client.crypto, client.validators, cert)
    requires cert.block.height == r.chain.Tip().height + 1
    requires InTime(cert.block, now) && AcceptBlock(client, r.chain, cert.block).Ok?
    ensures SyncOne(client, r, cert, now) == (t, Ok(true))
    ensures t.chain.blocks == r.chain.blocks + [cert.block] && t.bft == r.bft
  {
    t := r.(chain := AcceptBlock(client, r.chain, cert.block).value, finalized := r.finalized + [cert]);
  }

  lemma SyncAllOne(client: NodeConfig, r: RuntimeState, cert: FinalityCertificate, now: nat, t: RuntimeState)
    requires r.chain.HasTip() && t.chain.HasTip() && SyncOne(client, r, cert, now) == (t, Ok(true))
    ensures SyncAll(client, r, [cert], 0, now) == (t, Ok(1))
  {
    assert [cert][1..] == [];
    assert SyncAll(client, t, [], 1, now) == (t, Ok(1));
  }

  lemma EntersNext(client: NodeConfig, r: RuntimeState, cert: FinalityCertificate, now: nat, t: RuntimeState)
    requires r.chain.HasTip() && t.chain.HasTip() && SyncAll(client, r, [cert], 0, now) == (t, Ok(1))
    requires t.bft.height <= t.chain.Tip().height
    ensures var (u, applied) := ApplySyncCertificates(client, r, [cert], now);
      applied == Ok(1) && u.chain == t.chain && u.bft.height == t.chain.Tip().height + 1
  {
  }

  /** The driver loop over one response, certificate by certificate. */
  ghost function SyncBatch(client: NodeConfig, r: RuntimeState, certs: seq<FinalityCertificate>,
                           now: nat): (t: RuntimeState)
    requires r.chain.HasTip()
    ensures t.chain.HasTip()
    decreases |certs|
  {
    if certs == [] then r
    else SyncBatch(client, ApplySyncCertificates(client, r, [certs[0]], now).0, certs[1..], now)
  }

  /** Everything the two sides rely on: same rules, sound histories, the client on a prefix,
      and a client clock that no stored block is ahead of. */
  ghost predicate Linked(server: NodeConfig, client: NodeConfig, g: ChainState, s: RuntimeState, r: RuntimeState,
                         now: nat) {
    && SameRules(server, client) && HistoryInv(server, g, s) && ClientInv(client, g, r)
    && |r.chain.blocks| <= |s.chain.blocks| && r.chain.blocks == s.chain.blocks[..|r.chain.blocks|]
    && (forall b :: b in s.chain.blocks ==> InTime(b, now))
  }

  lemma SyncStep(server: NodeConfig, client: NodeConfig, g: ChainState, s: RuntimeState, r: RuntimeState, now: nat)
    returns (t: RuntimeState)
    requires Linked(server, client, g, s, r, now) && |r.chain.blocks| < |s.chain.blocks|
    ensures t == ApplySyncCertificates(client, r, [s.finalized[|r.chain.blocks| - 1]], now).0
    ensures Linked(server, client, g, s, t, now) && |t.chain.blocks| == |r.chain.blocks| + 1
  {
    SyncNext(server, client, g, s, r, now);
    t := ApplySyncCertificates(client, r, [s.finalized[|r.chain.blocks| - 1]], now).0;
  }

  lemma SliceTail(all: seq<FinalityCertificate>, certs: seq<FinalityCertificate>, k: nat)
    requires certs != [] && k + |certs| <= |all| && certs == all[k..k + |certs|]
    ensures certs[0] == all[k] && certs[1..] == all[k + 1..k + 1 + |certs[1..]|]
  {
  }

  /** A run of the server's certificates that starts right after the client's tip. */
  ghost predicate Following(s: RuntimeState, r: RuntimeState, certs: seq<FinalityCertificate>) {
    && 1 <= |r.chain.blocks| && |r.chain.blocks| - 1 + |certs| <= |s.finalized|
    && certs == s.finalized[|r.chain.blocks| - 1..|r.chain.blocks| - 1 + |certs|]
  }

  lemma FollowingTail(s: RuntimeState, r: RuntimeState, u: RuntimeState, certs: seq<FinalityCertificate>)
    requires Following(s, r, certs) && certs != [] && |u.chain.blocks| == |r.chain.blocks| + 1
    ensures Following(s, u, certs[1..]) && certs[0] == s.finalized[|r.chain.blocks| - 1]
  {
    SliceTail(s.finalized, certs, |r.chain.blocks| - 1);
  }

  lemma {:induction false} SyncBatchExtends(server: NodeConfig, client: NodeConfig, g: ChainState, s: RuntimeState,
                                            r: RuntimeState, certs: seq<FinalityCertificate>, now: nat)
    returns (t: RuntimeState)
    requires Linked(server, client, g, s, r, now) && Following(s, r, certs)
    ensures t == SyncBatch(client, r, certs, now)
    ensures Linked(server, client, g, s, t, now) && |t.chain.blocks| == |r.chain.blocks| + |certs|
    decreases |certs|
  {
    if certs == [] {
      t := r;
    } else {
      var u := SyncStep(server, client, g, s, r, now);
      FollowingTail(s, r, u, certs);
      t := SyncBatchExtends(server, client, g, s, u, certs[1..], now);
    }
  }

  /** One request for everything after the client's tip, and its response applied. */
  ghost function SyncRound(client: NodeConfig, r: RuntimeState, s: RuntimeState, size: FinalityCertificate -> nat,
                           now: nat): (t: RuntimeState)
    requires r.chain.HasTip()
    ensures t.chain.HasTip()
  {
    SyncBatch(client, r, CertificatesFrom(s.finalized, size, r.chain.Tip().height + 1, 0, 0, false), now)
  }

  /** Stored certificates count up from height one. */
  lemma FinalizedHeights(server: NodeConfig, g: ChainState, s: RuntimeState)
    requires HistoryInv(server, g, s)
    ensures forall i :: 0 <= i < |s.finalized| ==> s.finalized[i].block.height == 1 + i
    ensures |s.finalized| == s.chain.Tip().height == |s.chain.blocks| - 1
  {
    forall i | 0 <= i < |s.finalized| ensures s.finalized[i].block.height == 1 + i {
      AcceptedHeights(server, g, s.chain, i + 1);
    }
    AcceptedHeights(server, g, s.chain, |s.chain.blocks| - 1);
  }

  lemma ListResponse(certs: seq<FinalityCertificate>, size: FinalityCertificate -> nat, fromHeight: nat)
    requires forall i :: 0 <= i < |certs| ==> certs[i].block.height == 1 + i
    requires 1 <= fromHeight <= |certs| + 1
    ensures var out := CertificatesFrom(certs, size, fromHeight, 0, 0, false);
      && |out| <= MAX_SYNC_COUNT
      && (fromHeight <= |certs| ==> 1 <= |out|)
      && fromHeight - 1 + |out| <= |certs|
      && out == certs[fromHeight - 1..fromHeight - 1 + |out|]
      && (|out| >= 2 ==> TotalSize(out, size) <= MAX_SYNC_BYTES)
  {
    var k := fromHeight - 1;
    SkipShape(certs, size, 1, k);
    TakeShape(certs[k..], size, fromHeight, 0, 0, false);
    var out := CertificatesFrom(certs[k..], size, fromHeight, 0, 0, false);
    assert out == certs[k..][..|out|] == certs[k..k + |out|];
  }

  /** The response to any request at or below the tip is a non-empty run of consecutive
      certificates that starts exactly at the requested height, within the count limit and,
      beyond its first certificate, the byte limit. */
  lemma ResponseShape(server: NodeConfig, g: ChainState, s: RuntimeState, size: FinalityCertificate -> nat,
                      fromHeight: nat)
    requires HistoryInv(server, g, s) && 1 <= fromHeight <= s.chain.Tip().height
    ensures var out := CertificatesFrom(s.finalized, size, fromHeight, 0, 0, false);
      && 1 <= |out| <= MAX_SYNC_COUNT
      && (forall i :: 0 <= i < |out| ==> out[i].block.height == fromHeight + i)
      && (forall i :: 0 <= i < |out| ==>
            fromHeight + i < |s.chain.blocks| && out[i].block == s.chain.blocks[fromHeight + i])
      && (|out| >= 2 ==> TotalSize(out, size) <= MAX_SYNC_BYTES)
  {
    FinalizedHeights(server, g, s);
    ListResponse(s.finalized, size, fromHeight);
  }

  /** It ends before the tip only at the count limit or where one more certificate would break
      the byte limit. */
  lemma ResponseMaximal(server: NodeConfig, g: ChainState, s: RuntimeState, size: FinalityCertificate -> nat,
                        fromHeight: nat)
    requires HistoryInv(server, g, s) && 1 <= fromHeight <= s.chain.Tip().height
    ensures |s.finalized| == s.chain.Tip().height
    ensures var out := CertificatesFrom(s.finalized, size, fromHeight, 0, 0, false);
      || fromHeight - 1 + |out| >= |s.finalized| || |out| == MAX_SYNC_COUNT
      || TotalSize(out, size) + size(s.finalized[fromHeight - 1 + |out|]) > MAX_SYNC_BYTES
  {
    FinalizedHeights(server, g, s);
    ListMaximal(s.finalized, size, fromHeight);
  }

  lemma ListMaximal(certs: seq<FinalityCertificate>, size: FinalityCertificate -> nat, fromHeight: nat)
    requires forall i :: 0 <= i < |certs| ==> certs[i].block.height == 1 + i
    requires 1 <= fromHeight <= |certs| + 1
    ensures var out := CertificatesFrom(certs, size, fromHeight, 0, 0, false);
      || fromHeight - 1 + |out| >= |certs| || |out| == MAX_SYNC_COUNT
      || TotalSize(out, size) + size(certs[fromHeight - 1 + |out|]) > MAX_SYNC_BYTES
  {
    var k := fromHeight - 1;
    SkipShape(certs, size, 1, k);
    TakeMaximal(certs[k..], size, fromHeight, 0, 0, false);
  }

  /** Certificates and blocks counted by height. */
  ghost predicate Counted(s: RuntimeState) {
    && s.chain.HasTip()
    && (forall i :: 0 <= i < |s.finalized| ==> s.finalized[i].block.height == 1 + i)
    && |s.finalized| == s.chain.Tip().height == |s.chain.blocks| - 1
  }

  lemma ResponseFollows(s: RuntimeState, r: RuntimeState, size: FinalityCertificate -> nat)
    requires Counted(s) && Counted(r) && |r.chain.blocks| <= |s.chain.blocks|
    ensures var certs := CertificatesFrom(s.finalized, size, r.chain.Tip().height + 1, 0, 0, false);
      Following(s, r, certs) && (|r.chain.blocks| < |s.chain.blocks| ==> certs != [])
  {
    ListResponse(s.finalized, size, |r.chain.blocks|);
  }

  lemma SyncRoundProgress(server: NodeConfig, client: NodeConfig, g: ChainState, s: RuntimeState, r: RuntimeState,
                          size: FinalityCertificate -> nat, now: nat)
    requires Linked(server, client, g, s, r, now)
    ensures var t := SyncRound(client, r, s, size, now);
      && Linked(server, client, g, s, t, now)
      && |t.chain.blocks| >= |r.chain.blocks|
      && (|r.chain.blocks| < |s.chain.blocks| ==> |t.chain.blocks| > |r.chain.blocks|)
  {
    var certs := CertificatesFrom(s.finalized, size, r.chain.Tip().height + 1, 0, 0, false);
    assert Following(s, r, certs) && (|r.chain.blocks| < |s.chain.blocks| ==> certs != []) by {
      FinalizedHeights(client, g, r);
      FinalizedHeights(server, g, s);
      ResponseFollows(s, r, size);
    }
    var t := SyncBatchExtends(server, client, g, s, r, certs, now);
  }

  ghost function Iterate<S>(f: S -> S, s: S, n: nat): S {
    if n == 0 then s else Iterate(f, f(s), n - 1)
  }

  /** A step that keeps an invariant and shrinks what is left uses it up in that many steps. */
  lemma {:induction false} IterateReaches<S(!new)>(f: S -> S, inv: S -> bool, left: S -> nat, s: S, n: nat)
    requires inv(s) && left(s) <= n
    requires forall x :: inv(x) ==> inv(f(x)) && left(f(x)) <= left(x) && (left(x) > 0 ==> left(f(x)) < left(x))
    ensures inv(Iterate(f, s, n)) && left(Iterate(f, s, n)) == 0
    decreases n
  {
    if n > 0 {
      IterateReaches(f, inv, left, f(s), n - 1);
    }
  }

  /** One sync round against a fixed server, as a function of the client state. */
  ghost function RoundAgainst(client: NodeConfig, s: RuntimeState, size: FinalityCertificate -> nat,
                              now: nat): RuntimeState -> RuntimeState {
    (r: RuntimeState) => if r.chain.HasTip() then SyncRound(client, r, s, size, now) else r
  }

  lemma CaughtUp(server: NodeConfig, client: NodeConfig, g: ChainState, s: RuntimeState, r: RuntimeState, now: nat)
    requires Linked(server, client, g, s, r, now) && |r.chain.blocks| == |s.chain.blocks|
    ensures r.chain == s.chain
  {
    assert r.chain.blocks == s.chain.blocks;
    AcceptSameRules(server, client, g, s.chain.blocks[1..]);
  }

  /** The blocks the client still lacks. */
  function Missing(s: RuntimeState): RuntimeState -> nat {
    (r: RuntimeState) => if |r.chain.blocks| <= |s.chain.blocks| then |s.chain.blocks| - |r.chain.blocks| else 0
  }

  ghost function LinkedTo(server: NodeConfig, client: NodeConfig, g: ChainState, s: RuntimeState,
                          now: nat): RuntimeState -> bool {
    (r: RuntimeState) => Linked(server, client, g, s, r, now)
  }

  lemma RoundShrinks(server: NodeConfig, client: NodeConfig, g: ChainState, s: RuntimeState,
                     size: FinalityCertificate -> nat, now: nat)
    ensures var f, inv, left := RoundAgainst(client, s, size, now), LinkedTo(server, client, g, s, now), Missing(s);
      forall x :: inv(x) ==> inv(f(x)) && left(f(x)) <= left(x) && (left(x) > 0 ==> left(f(x)) < left(x))
  {
    var f, inv, left := RoundAgainst(client, s, size, now), LinkedTo(server, client, g, s, now), Missing(s);
    forall x | inv(x) ensures inv(f(x)) && left(f(x)) <= left(x) && (left(x) > 0 ==> left(f(x)) < left(x)) {
      SyncRoundProgress(server, client, g, s, x, size, now);
    }
  }

  lemma NoneMissing(server: NodeConfig, client: NodeConfig, g: ChainState, s: RuntimeState, now: nat)
    ensures forall x {:trigger LinkedTo(server, client, g, s, now)(x)} ::
      LinkedTo(server, client, g, s, now)(x) && Missing(s)(x) == 0 ==> x.chain == s.chain
  {
    forall x | LinkedTo(server, client, g, s, now)(x) && Missing(s)(x) == 0 ensures x.chain == s.chain {
      CaughtUp(server, client, g, s, x, now);
    }
  }

  lemma Arrives(f: RuntimeState -> RuntimeState, inv: RuntimeState -> bool, left: RuntimeState -> nat,
                goal: ChainState, r: RuntimeState, n: nat)
    requires inv(r) && left(r) <= n
    requires forall x :: inv(x) ==> inv(f(x)) && left(f(x)) <= left(x) && (left(x) > 0 ==> left(f(x)) < left(x))
    requires forall x {:trigger inv(x)} :: inv(x) && left(x) == 0 ==> x.chain == goal
    ensures Iterate(f, r, n).chain == goal
  {
    IterateReaches(f, inv, left, r, n);
  }

  /** Repeated requests bring a client on any prefix to the server's tip, with the server's
      complete ledger, in at most as many requests as there are missing blocks. */
  lemma SyncReachesTip(server: NodeConfig, client: NodeConfig, g: ChainState, s: RuntimeState, r: RuntimeState,
                       size: FinalityCertificate -> nat, now: nat, rounds: nat)
    requires Linked(server, client, g, s, r, now)
    requires rounds >= |s.chain.blocks| - |r.chain.blocks|
    ensures Iterate(RoundAgainst(client, s, size, now), r, rounds).chain == s.chain
  {
    RoundShrinks(server, client, g, s, size, now);
    NoneMissing(server, client, g, s, now);
    assert LinkedTo(server, client, g, s, now)(r);
    Arrives(RoundAgainst(client, s, size, now), LinkedTo(server, client, g, s, now), Missing(s), s.chain, r, rounds);
  }
}
