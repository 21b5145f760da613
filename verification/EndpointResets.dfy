/** The two-level table of stateless reset tokens against the tokens that connections hold. */
module EndpointResets {
  import opened Common
  import opened EndpointModel

  ghost predicate HoldsKey(conns: map<Handle, Meta>, ch: Handle, path: PathId, k: ResetKey) {
    ch in conns && path in conns[ch].resets && conns[ch].resets[path] == k
  }

  /** The table answers `ch` for `k`. */
  ghost predicate Points(t: ResetTable, k: ResetKey, ch: Handle) {
    k.remote in t && k.token in t[k.remote] && t[k.remote][k.token] == ch
  }

  ghost predicate NoneEmpty(t: ResetTable) {
    forall r <- t :: t[r] != map[]
  }

  /** Every entry names a live connection that holds that very token and address; no address is left empty. */
  ghost predicate ResetInv(s: Endpoint) {
    && NoneEmpty(s.resets)
    && (forall k, ch :: Points(s.resets, k, ch) ==> exists path :: HoldsKey(s.connections, ch, path, k))
  }

  // ---------------------------------------------------------------------------------------------
  // The table's operations, entry by entry
  // ---------------------------------------------------------------------------------------------

  lemma InsertPoints(t: ResetTable, k0: ResetKey, ch0: Handle)
    requires NoneEmpty(t)
    ensures NoneEmpty(InsertToken(t, k0, ch0))
    ensures forall k, ch :: Points(InsertToken(t, k0, ch0), k, ch) <==> if k == k0 then ch == ch0 else Points(t, k, ch)
  {
    var t' := InsertToken(t, k0, ch0);
    assert k0.token in t'[k0.remote];
  }

  lemma RemovePoints(t: ResetTable, k0: ResetKey)
    requires NoneEmpty(t)
    ensures NoneEmpty(RemoveToken(t, k0))
    ensures forall k, ch :: Points(RemoveToken(t, k0), k, ch) <==> k != k0 && Points(t, k, ch)
  {
    if k0.remote in t {
      var inner := t[k0.remote] - {k0.token};
      forall k: ResetKey | k.remote == k0.remote && k != k0
        ensures k.token in inner <==> k.token in t[k0.remote]
      {
      }
    }
  }

  lemma PurgePoints(t: ResetTable, keys: set<ResetKey>)
    ensures NoneEmpty(Purged(t, keys))
    ensures forall k, ch :: Points(Purged(t, keys), k, ch) <==> k !in keys && Points(t, k, ch)
  {
    var t' := Purged(t, keys);
    forall r <- t'
      ensures t'[r] != map[]
    {
      var x :| x in t[r] && ResetKey(r, x) !in keys;
      assert x in t'[r];
    }
    forall k: ResetKey, ch
      ensures Points(t', k, ch) <==> k !in keys && Points(t, k, ch)
    {
      assert k == ResetKey(k.remote, k.token);
    }
  }

  /** Tables without empty addresses are determined by their entries. */
  lemma SamePointsSameTable(t: ResetTable, u: ResetTable)
    requires NoneEmpty(t) && NoneEmpty(u)
    requires forall k, ch :: Points(t, k, ch) <==> Points(u, k, ch)
    ensures t == u
  {
    Covered(t, u);
    Covered(u, t);
    hide Points, NoneEmpty;
    forall r <- t ensures t[r] == u[r] {}
  }

  lemma Covered(t: ResetTable, u: ResetTable)
    requires NoneEmpty(t)
    requires forall k, ch :: Points(t, k, ch) ==> Points(u, k, ch)
    ensures forall r <- t :: r in u && t[r].Keys <= u[r].Keys && forall x <- t[r] :: u[r][x] == t[r][x]
  {
    forall r, x | r in t && x in t[r]
      ensures r in u && x in u[r] && u[r][x] == t[r][x]
    {
      assert Points(t, ResetKey(r, x), t[r][x]);
      assert Points(u, ResetKey(r, x), t[r][x]);
    }
    forall r <- t
      ensures r in u
    {
      var x :| x in t[r].Keys;
    }
  }

  // ---------------------------------------------------------------------------------------------
  // Each operation keeps the invariant
  // ---------------------------------------------------------------------------------------------

  /** How the holders change when `ch` takes `k` on `path`. */
  lemma SetHolds(s: Endpoint, ch: Handle, path: PathId, k: ResetKey)
    requires ch in s.connections
    ensures forall c, p, x ::
              HoldsKey(SetResetToken(s, ch, path, k).connections, c, p, x) <==>
              if c == ch && p == path then x == k else HoldsKey(s.connections, c, p, x)
  {
    hide InsertToken, RemoveToken;
  }

  lemma SetKeepsResetInv(s: Endpoint, ch: Handle, path: PathId, k: ResetKey)
    requires ResetInv(s) && ch in s.connections
    ensures ResetInv(SetResetToken(s, ch, path, k))
  {
    var s' := SetResetToken(s, ch, path, k);
    var m := s.connections[ch];
    var t := if path in m.resets then RemoveToken(s.resets, m.resets[path]) else s.resets;
    if path in m.resets { RemovePoints(s.resets, m.resets[path]); }
    InsertPoints(t, k, ch);
    SetHolds(s, ch, path, k);
    assert path in m.resets ==> HoldsKey(s.connections, ch, path, m.resets[path]);
    hide Points, NoneEmpty, RemoveToken, InsertToken;
    forall x, c | Points(s'.resets, x, c)
      ensures exists p :: HoldsKey(s'.connections, c, p, x)
    {
      if x == k {
        assert HoldsKey(s'.connections, ch, path, k);
      } else {
        var p :| HoldsKey(s.connections, c, p, x);
        assert HoldsKey(s'.connections, c, p, x);
      }
    }
  }

  lemma RetireKeepsResetInv(s: Endpoint, ch: Handle, path: PathId)
    requires ResetInv(s) && ch in s.connections
    ensures ResetInv(RetireResetToken(s, ch, path))
  {
    var m := s.connections[ch];
    if path in m.resets {
      var s' := RetireResetToken(s, ch, path);
      RemovePoints(s.resets, m.resets[path]);
      hide Points, NoneEmpty, RemoveToken;
      forall x, c | Points(s'.resets, x, c)
        ensures exists p :: HoldsKey(s'.connections, c, p, x)
      {
        var p :| HoldsKey(s.connections, c, p, x);
        assert HoldsKey(s'.connections, c, p, x);
      }
    }
  }

  lemma DrainKeepsResetInv(s: Endpoint, ch: Handle)
    requires ResetInv(s)
    ensures ResetInv(Drain(s, ch))
  {
    if ch in s.connections {
      var s' := Drain(s, ch);
      PurgePoints(s.resets, KeysOf(s.connections[ch]));
      hide Points, NoneEmpty, Purged, CidsOf;
      forall x, c | Points(s'.resets, x, c)
        ensures exists p :: HoldsKey(s'.connections, c, p, x)
      {
        var p :| HoldsKey(s.connections, c, p, x);
        assert HoldsKey(s'.connections, c, p, x);
      }
    }
  }

  /** Changes that leave the table and the holders alone, and new connections, which hold nothing. */
  lemma SameResetsKeepResetInv(s: Endpoint, s': Endpoint)
    requires ResetInv(s) && s'.resets == s.resets && s.connections.Keys <= s'.connections.Keys
    requires forall ch <- s.connections :: s'.connections[ch].resets == s.connections[ch].resets
    ensures ResetInv(s')
  {
    hide Points;
    forall x, c | Points(s'.resets, x, c)
      ensures exists p :: HoldsKey(s'.connections, c, p, x)
    {
      var p :| HoldsKey(s.connections, c, p, x);
      assert HoldsKey(s'.connections, c, p, x);
    }
  }

  // ---------------------------------------------------------------------------------------------
  // Exactly when no holder is lost
  // ---------------------------------------------------------------------------------------------

  /** Conversely, every token held is found in the table under its holder. */
  ghost predicate Complete(s: Endpoint) {
    forall ch, path, k :: HoldsKey(s.connections, ch, path, k) ==> Points(s.resets, k, ch)
  }

  /** Somebody holds `k` other than `ch` on `path`. */
  ghost predicate HeldElsewhere(s: Endpoint, ch: Handle, path: PathId, k: ResetKey) {
    exists c, p :: HoldsKey(s.connections, c, p, k) && !(c == ch && p == path)
  }

  /** What the endpoint could check first: another connection holds the new token, or another path the replaced one. */
  ghost predicate Clashes(s: Endpoint, ch: Handle, path: PathId, k: ResetKey)
    requires ch in s.connections
  {
    || (exists c, p :: HoldsKey(s.connections, c, p, k) && c != ch)
    || (path in s.connections[ch].resets && s.connections[ch].resets[path] != k
        && HeldElsewhere(s, ch, path, s.connections[ch].resets[path]))
  }

  lemma SetStaysCompleteIff(s: Endpoint, ch: Handle, path: PathId, k: ResetKey)
    requires ResetInv(s) && Complete(s) && ch in s.connections
    ensures Complete(SetResetToken(s, ch, path, k)) <==> !Clashes(s, ch, path, k)
  {
    var s' := SetResetToken(s, ch, path, k);
    var m := s.connections[ch];
    var t := if path in m.resets then RemoveToken(s.resets, m.resets[path]) else s.resets;
    if path in m.resets { RemovePoints(s.resets, m.resets[path]); }
    InsertPoints(t, k, ch);
    SetHolds(s, ch, path, k);
    var old_ := if path in m.resets then Some(m.resets[path]) else None;
    assert forall x, c :: Points(s'.resets, x, c) <==>
      if x == k then c == ch else Points(s.resets, x, c) && old_ != Some(x);
    hide Points, NoneEmpty, RemoveToken, InsertToken, SetResetToken;
    if !Complete(s') {
      var c, p, x :| HoldsKey(s'.connections, c, p, x) && !Points(s'.resets, x, c);
      assert HoldsKey(s.connections, c, p, x) && !(c == ch && p == path);
    }
  }

  lemma RetireStaysCompleteIff(s: Endpoint, ch: Handle, path: PathId)
    requires ResetInv(s) && Complete(s) && ch in s.connections && path in s.connections[ch].resets
    ensures Complete(RetireResetToken(s, ch, path)) <==> !HeldElsewhere(s, ch, path, s.connections[ch].resets[path])
  {
    var s' := RetireResetToken(s, ch, path);
    var k := s.connections[ch].resets[path];
    RemovePoints(s.resets, k);
    assert forall c, p, x :: HoldsKey(s'.connections, c, p, x) <==>
      HoldsKey(s.connections, c, p, x) && !(c == ch && p == path);
    hide Points, NoneEmpty, RemoveToken, HoldsKey;
  }

  lemma DrainStaysCompleteIff(s: Endpoint, ch: Handle)
    requires ResetInv(s) && Complete(s) && ch in s.connections
    ensures Complete(Drain(s, ch)) <==>
            forall c, p, k :: HoldsKey(s.connections, c, p, k) && c != ch ==> k !in KeysOf(s.connections[ch])
  {
    var s' := Drain(s, ch);
    var keys := KeysOf(s.connections[ch]);
    PurgePoints(s.resets, keys);
    assert forall c, p, x :: HoldsKey(s'.connections, c, p, x) <==> HoldsKey(s.connections, c, p, x) && c != ch;
    hide Points, NoneEmpty, Purged, HoldsKey, KeysOf, CidsOf;
  }
}
