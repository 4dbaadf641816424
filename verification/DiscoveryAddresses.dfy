/** Which addresses a discovered host lists (mcp_ssh/discovery.py, _record_addr). */
module DiscoveryAddresses {
  import opened Discovery
  import opened DiscoverySafety
  import Registry

  /**
   * Each host lists exactly the addresses at which its box answered, and a box that answered is known to
   * have been met.
   */
  ghost predicate Addressed(w: World, e: Engine) {
    && (forall i, a :: 0 <= i < |e.discovered| ==>
          (a in e.discovered[i].addrs <==> a in e.finished && w.connect(a) == Presents(e.discovered[i].fingerprint)))
    && (forall a :: a in e.finished && w.connect(a).Presents? ==> w.connect(a).fingerprint in e.visitedFps)
  }

  /** Where an extra address goes: to the end of the list of the first host of the box that lacks it, or nowhere. */
  lemma {:induction false} RecordedAt(hosts: seq<Host>, fp: string, addr: string) returns (k: nat)
    ensures k <= |hosts|
    ensures forall j :: 0 <= j < k ==> hosts[j].fingerprint != fp || addr in hosts[j].addrs
    ensures if k < |hosts| then
              && hosts[k].fingerprint == fp && addr !in hosts[k].addrs
              && RecordAddr(hosts, fp, addr) == hosts[k := hosts[k].(addrs := hosts[k].addrs + [addr])]
            else RecordAddr(hosts, fp, addr) == hosts
  {
    if hosts == [] || (hosts[0].fingerprint == fp && addr !in hosts[0].addrs) {
      k := 0;
    } else {
      k := RecordedAt(hosts[1..], fp, addr);
      k := k + 1;
    }
  }

  lemma AddressedStarts(w: World, reg: Registry.Reg)
    ensures Addressed(w, Start(reg))
  {
  }

  /** A known box answers at one more address. */
  lemma AddressedRecords(w: World, e: Engine, e': Engine, addr: string, fp: string)
    requires Addressed(w, e) && DistinctHosts(e) && addr !in e.finished && w.connect(addr) == Presents(fp)
    requires fp in e.visitedFps && e'.visitedFps == e.visitedFps && e'.finished == e.finished + {addr}
    requires e'.discovered == RecordAddr(e.discovered, fp, addr)
    ensures Addressed(w, e')
  {
    var k := RecordedAt(e.discovered, fp, addr);
    forall i | 0 <= i < |e.discovered| && i != k
      ensures e'.discovered[i] == e.discovered[i] && e.discovered[i].fingerprint != fp
    {
      if i < k {
        assert addr !in e.discovered[i].addrs;
      } else {
        assert e.discovered[k].fingerprint != e.discovered[i].fingerprint;
      }
    }
  }

  /** The address shows no known box: no list changes. */
  lemma AddressedPasses(w: World, e: Engine, e': Engine, addr: string)
    requires Addressed(w, e) && DistinctHosts(e) && e'.discovered == e.discovered
    requires e'.finished == e.finished + {addr} && e.visitedFps <= e'.visitedFps
    requires w.connect(addr).Presents? ==>
      w.connect(addr).fingerprint !in e.visitedFps && w.connect(addr).fingerprint in e'.visitedFps
    ensures Addressed(w, e')
  {
  }

  lemma AddressedAdmits(p: Params, w: World, e: Engine, e': Engine, via: Node, addr: string, host: Host,
      cfg: Registry.ServerConfig)
    requires Addressed(w, e) && DistinctHosts(e) && Admits(p, w, e', e, via, addr, host, cfg)
    ensures Addressed(w, e')
  {
    forall i, a | 0 <= i < |e'.discovered|
      ensures a in e'.discovered[i].addrs
        <==> a in e'.finished && w.connect(a) == Presents(e'.discovered[i].fingerprint)
    {
      if i < |e.discovered| {
        assert e'.discovered[i] == e.discovered[i] && e.discovered[i].fingerprint in e.visitedFps;
      } else {
        assert e'.discovered[i] == host && host.addrs == [addr];
      }
    }
  }

  /** The step after a connect. */
  lemma AddressedFinish(p: Params, w: World, e: Engine, via: Node, addr: string)
    requires Addressed(w, e) && DistinctHosts(e) && addr !in e.finished
    ensures Addressed(w, FinishDial(p, w, e, via, addr).engine)
  {
    var f := FinishDial(p, w, e, via, addr);
    if f.found.Some? {
      FinishShape(p, w, e, via, addr);
      var host, cfg := f.engine.discovered[|e.discovered|], f.engine.configs[|e.configs|];
      AddressedAdmits(p, w, e, f.engine, via, addr, host, cfg);
    } else if w.connect(addr).Presents? && w.connect(addr).fingerprint in e.visitedFps {
      AddressedRecords(w, e, f.engine, addr, w.connect(addr).fingerprint);
    } else {
      AddressedPasses(w, e, f.engine, addr);
    }
  }
}
