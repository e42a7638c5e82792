/** The server's choice of a cipher, with groups of equal preference (ssl3_choose_cipher in handshake_server.cc). */
module CipherChoice {
  import opened Bytes

  /** SSL_CIPHER, as far as the choice looks at it. */
  datatype Cipher = Cipher(id: nat, minVersion: nat, maxVersion: nat, mkey: bv32, auth: bv32)

  /** The protocol version and what the certificate and the groups allow (ssl_get_compatible_server_ciphers). */
  datatype Setting = Setting(version: nat, maskK: bv32, maskA: bv32)

  /** ssl_cipher_preference_list_st. A true flag means that the group goes on with the next cipher. */
  datatype Preference = Preference(ciphers: seq<Cipher>, inGroup: seq<bool>)
  {
    predicate Valid() {
      |inGroup| == |ciphers|
    }

    /** No group is left open at the end. */
    predicate Closed() {
      Valid() && (inGroup != [] ==> !inGroup[|inGroup| - 1])
    }
  }

  predicate Compatible(c: Cipher, s: Setting) {
    c.minVersion <= s.version <= c.maxVersion && c.mkey & s.maskK != 0 && c.auth & s.maskA != 0
  }

  /** sk_SSL_CIPHER_find: the first place of a cipher. */
  function Place(list: seq<Cipher>, c: Cipher): (r: Option<nat>)
    ensures r.Some? <==> c in list
    ensures r.Some? ==> r.value < |list| && list[r.value] == c && c !in list[..r.value]
  {
    if list == [] then None
    else if list[0] == c then Some(0)
    else
      var r := Place(list[1..], c);
      if r.None? then None else Some(r.value + 1)
  }

  /** A cipher of the first list that both sides can use. */
  predicate Candidate(prio: seq<Cipher>, allow: seq<Cipher>, s: Setting, i: nat) {
    i < |prio| && Compatible(prio[i], s) && prio[i] in allow
  }

  predicate Ends(flags: Option<seq<bool>>, i: nat) {
    flags.Some? && i < |flags.value| ==> !flags.value[i]
  }

  /** The number of the group that the i-th cipher is in. Without flags every cipher is a group of its own. */
  function Group(flags: Option<seq<bool>>, i: nat): nat {
    if i == 0 then 0 else Group(flags, i - 1) + if Ends(flags, i - 1) then 1 else 0
  }

  lemma {:induction false} GroupGrows(flags: Option<seq<bool>>, i: nat, j: nat)
    requires i <= j
    ensures Group(flags, i) <= Group(flags, j)
    ensures i < j && Ends(flags, i) ==> Group(flags, i) < Group(flags, j)
  {
    if i < j {
      GroupGrows(flags, i, j - 1);
    }
  }

  /** The i-th cipher's group ends somewhere in a list of n. */
  predicate Finished(flags: Option<seq<bool>>, n: nat, i: nat) {
    exists j | i <= j < n :: Ends(flags, j)
  }

  /** Better, or as good: an earlier group, or within the group an earlier place in the other list. */
  predicate AsGood(prio: seq<Cipher>, allow: seq<Cipher>, flags: Option<seq<bool>>, i: nat, k: nat)
    requires i < |prio| && k < |prio| && prio[i] in allow && prio[k] in allow
  {
    || Group(flags, i) < Group(flags, k)
    || (Group(flags, i) == Group(flags, k) && Place(allow, prio[i]).value <= Place(allow, prio[k]).value)
  }

  /** The best of the candidates before n. */
  predicate Best(prio: seq<Cipher>, allow: seq<Cipher>, flags: Option<seq<bool>>, s: Setting, n: nat, i: nat) {
    && Candidate(prio, allow, s, i)
    && forall k | 0 <= k < n && Candidate(prio, allow, s, k) :: AsGood(prio, allow, flags, i, k)
  }

  /** When the group of the n-th cipher ends with it, the best up to there is the best of all. */
  lemma BestOfAll(prio: seq<Cipher>, allow: seq<Cipher>, flags: Option<seq<bool>>, s: Setting, n: nat, i: nat)
    requires n < |prio| && i <= n && Ends(flags, n) && Best(prio, allow, flags, s, n + 1, i)
    ensures Best(prio, allow, flags, s, |prio|, i) && Finished(flags, |prio|, i)
  {
    GroupGrows(flags, i, n);
    forall k | 0 <= k < |prio| && Candidate(prio, allow, s, k) ensures AsGood(prio, allow, flags, i, k) {
      if k > n {
        GroupGrows(flags, n, k);
      }
    }
  }

  /** Nothing was found before n, or i is the best, at this place of the other list and in this group. */
  ghost predicate Sofar(prio: seq<Cipher>, allow: seq<Cipher>, flags: Option<seq<bool>>, s: Setting, n: nat,
      group: nat, groupMin: int, i: nat)
  {
    if groupMin == -1 then forall k | 0 <= k < n :: !Candidate(prio, allow, s, k)
    else
      && i < n && Best(prio, allow, flags, s, n, i)
      && groupMin == Place(allow, prio[i]).value
      && Group(flags, i) == group
  }

  /** The n-th cipher is looked at: m and j are the best place and cipher then. */
  lemma LookAt(prio: seq<Cipher>, allow: seq<Cipher>, flags: Option<seq<bool>>, s: Setting, n: nat,
      groupMin: int, i: nat)
    returns (m: int, j: nat)
    requires n < |prio| && Sofar(prio, allow, flags, s, n, Group(flags, n), groupMin, i)
    ensures Sofar(prio, allow, flags, s, n + 1, Group(flags, n), m, j) && (m == -1 || j <= n)
    ensures Candidate(prio, allow, s, n) ==>
              var place := Place(allow, prio[n]).value;
              m == if groupMin == -1 || groupMin > place then place else groupMin
    ensures !Candidate(prio, allow, s, n) ==> m == groupMin
  {
    m, j := groupMin, i;
    hide Group;
    if Candidate(prio, allow, s, n) {
      var place := Place(allow, prio[n]).value;
      if groupMin == -1 || groupMin > place {
        m, j := place, n;
      }
    }
  }

  /** The n-th cipher's group is not yet at its end. */
  lemma GroupGoesOn(prio: seq<Cipher>, allow: seq<Cipher>, flags: Option<seq<bool>>, s: Setting, n: nat, m: int, j: nat)
    requires Sofar(prio, allow, flags, s, n + 1, Group(flags, n), m, j) && (m == -1 || !Ends(flags, n))
    ensures Sofar(prio, allow, flags, s, n + 1, Group(flags, n + 1), m, j)
  {
    hide Best, Candidate;
  }

  /** The search of ssl3_choose_cipher: i is where it finds its choice. */
  method Search(prio: seq<Cipher>, allow: seq<Cipher>, flags: Option<seq<bool>>, s: Setting)
    returns (choice: Option<Cipher>, ghost i: nat)
    requires flags.Some? ==> |flags.value| == |prio|
    ensures choice.Some? ==>
              && Best(prio, allow, flags, s, |prio|, i) && choice.value == prio[i]
              && Finished(flags, |prio|, i)
    ensures choice.None? ==>
              forall k | 0 <= k < |prio| && Candidate(prio, allow, s, k) :: !Finished(flags, |prio|, k)
  {
    var groupMin: int := -1;
    var n := 0;
    i := 0;
    while n < |prio|
      invariant 0 <= n <= |prio| && Sofar(prio, allow, flags, s, n, Group(flags, n), groupMin, i)
      invariant forall k | 0 <= k < n && Candidate(prio, allow, s, k) :: !Finished(flags, n, k)
    {
      var c := prio[n];
      var place := Place(allow, c);
      ghost var m;
      m, i := LookAt(prio, allow, flags, s, n, groupMin, i);
      if Compatible(c, s) && place.Some? {
        var cipherIndex := place.value;
        if flags.Some? && flags.value[n] {
          if groupMin == -1 || groupMin > cipherIndex {
            groupMin := cipherIndex;
          }
        } else {
          if groupMin != -1 && groupMin < cipherIndex {
            cipherIndex := groupMin;
          }
          BestOfAll(prio, allow, flags, s, n, i);
          choice := Some(allow[cipherIndex]);
          return;
        }
      }
      if flags.Some? && !flags.value[n] && groupMin != -1 {
        BestOfAll(prio, allow, flags, s, n, i);
        choice := Some(allow[groupMin]);
        return;
      }
      GroupGoesOn(prio, allow, flags, s, n, groupMin, i);
      n := n + 1;
    }
    choice := None;
  }

  /** The list in whose order the search goes, the list it looks the ciphers up in, and the groups of the first. */
  datatype Roles = Roles(prio: seq<Cipher>, allow: seq<Cipher>, flags: Option<seq<bool>>)

  function RolesOf(client: seq<Cipher>, server: Preference, serverPreference: bool): Roles {
    if serverPreference then Roles(server.ciphers, client, Some(server.inGroup))
    else Roles(client, server.ciphers, None)
  }

  /** Some cipher that both sides can use is in a group that ends. */
  ghost predicate Choosable(r: Roles, s: Setting) {
    exists k: nat :: Candidate(r.prio, r.allow, s, k) && Finished(r.flags, |r.prio|, k)
  }

  /** The cipher is the best of all that both sides can use. */
  ghost predicate Chosen(r: Roles, s: Setting, c: Cipher) {
    exists i: nat :: Best(r.prio, r.allow, r.flags, s, |r.prio|, i) && c == r.prio[i]
  }

  lemma FoundChoosable(r: Roles, s: Setting, i: nat)
    requires Best(r.prio, r.allow, r.flags, s, |r.prio|, i) && Finished(r.flags, |r.prio|, i)
    ensures Choosable(r, s) && Chosen(r, s, r.prio[i])
  {
  }

  /** ssl3_choose_cipher. The client's list may be one that does not parse. */
  method ChooseCipher(client: Option<seq<Cipher>>, server: Preference, serverPreference: bool, s: Setting)
    returns (choice: Option<Cipher>)
    requires server.Valid()
    ensures client.None? ==> choice.None?
    ensures client.Some? ==>
              var r := RolesOf(client.value, server, serverPreference);
              (choice.Some? <==> Choosable(r, s)) && (choice.Some? ==> Chosen(r, s, choice.value))
  {
    if client.None? {
      return None;
    }
    var prio, allow, flags := client.value, server.ciphers, None;
    if serverPreference {
      prio, flags, allow := server.ciphers, Some(server.inGroup), client.value;
    }
    ghost var i;
    choice, i := Search(prio, allow, flags, s);
    ghost var r := Roles(prio, allow, flags);
    if choice.Some? {
      FoundChoosable(r, s, i);
    }
    hide Best, Candidate, Finished;
  }

  /** If the groups of the server's list are closed, whenever there is a cipher that both sides can use there is one to
      choose. */
  lemma ClosedChooses(client: seq<Cipher>, server: Preference, serverPreference: bool, s: Setting)
    requires server.Valid() && (serverPreference ==> server.Closed())
    ensures Choosable(RolesOf(client, server, serverPreference), s)
       <==> exists c :: c in client && c in server.ciphers && Compatible(c, s)
  {
    var r := RolesOf(client, server, serverPreference);
    if c :| c in client && c in server.ciphers && Compatible(c, s) {
      var k := Place(r.prio, c).value;
      LastEnds(r, k);
      assert Candidate(r.prio, r.allow, s, k);
    }
    hide Finished, Compatible, Place;
    if k: nat :| Candidate(r.prio, r.allow, s, k) && Finished(r.flags, |r.prio|, k) {
      assert r.prio[k] in client && r.prio[k] in server.ciphers;
    }
  }

  lemma LastEnds(r: Roles, k: nat)
    requires k < |r.prio|
    requires r.flags.Some? ==> |r.flags.value| == |r.prio| && !r.flags.value[|r.prio| - 1]
    ensures Finished(r.flags, |r.prio|, k)
  {
    assert Ends(r.flags, |r.prio| - 1);
  }

  /** A group that is left open at the end is lost: if all that both sides can use is in it, nothing is chosen. */
  lemma OpenGroupLost(client: seq<Cipher>, server: Preference, s: Setting, open: nat)
    requires server.Valid() && open <= |server.ciphers|
    requires forall j | open <= j < |server.ciphers| :: server.inGroup[j]
    requires forall k | 0 <= k < open :: !Candidate(server.ciphers, client, s, k)
    ensures !Choosable(RolesOf(client, server, true), s)
  {
    var r := RolesOf(client, server, true);
    forall k: nat | Candidate(r.prio, r.allow, s, k) ensures !Finished(r.flags, |r.prio|, k) {
      assert forall j | k <= j < |r.prio| :: !Ends(r.flags, j);
    }
  }

  /** Without server preference the choice is the client's first cipher that both sides can use. */
  lemma FirstOfClient(client: seq<Cipher>, allow: seq<Cipher>, s: Setting, i: nat)
    requires Best(client, allow, None, s, |client|, i)
    ensures forall k | 0 <= k < i :: !Candidate(client, allow, s, k)
  {
    forall k | 0 <= k < i ensures !Candidate(client, allow, s, k) {
      GroupGrows(None, k, i);
    }
  }
}
