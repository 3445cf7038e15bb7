/** The server's choice of a cipher, with equal-preference groups. */
module CipherChoice {
  import opened Words
  import opened Digits

  /** SSL_CIPHER: an identity, the protocol versions it works with, and its key exchange and
      authentication bits. */
  datatype Cipher = Cipher(id: nat, minVersion: nat, maxVersion: nat, keyExchange: nat, authentication: nat)

  /** What the handshake allows: the version, and the masks of ssl_get_compatible_server_ciphers. */
  datatype Config = Config(version: nat, maskK: nat, maskA: nat)

  predicate Supported(cfg: Config, c: Cipher) {
    && c.minVersion <= cfg.version <= c.maxVersion
    && And(c.keyExchange, cfg.maskK) != 0
    && And(c.authentication, cfg.maskA) != 0
  }

  /** A cipher fits if the version is in its range, and one of its key exchange bits and one of its
      authentication bits are among those allowed. */
  lemma {:induction false} SupportedExactly(cfg: Config, c: Cipher)
    ensures Supported(cfg, c) <==>
      && cfg.version >= c.minVersion && cfg.version <= c.maxVersion
      && (exists i: nat :: InMask(c.keyExchange, i) && InMask(cfg.maskK, i))
      && (exists i: nat :: InMask(c.authentication, i) && InMask(cfg.maskA, i))
  {
    MasksMeet(c.keyExchange, cfg.maskK);
    MasksMeet(c.authentication, cfg.maskA);
  }

  /** Bit i of a mask, as a binary digit. */
  predicate InMask(mask: nat, i: nat) { Digit(mask, 2, i) == 1 }

  lemma {:induction false} MasksMeet(a: nat, b: nat)
    ensures And(a, b) != 0 <==> exists i: nat :: InMask(a, i) && InMask(b, i)
  {
    hide And, Bit, Digit;
    CommonBit(a, b);
    if And(a, b) != 0 {
      var i: nat :| Bit(a, i) && Bit(b, i);
      BitDigit(a, i);
      BitDigit(b, i);
      assert InMask(a, i) && InMask(b, i);
    }
    if i: nat :| InMask(a, i) && InMask(b, i) {
      BitDigit(a, i);
      BitDigit(b, i);
    }
  }

  predicate Acceptable(cfg: Config, allow: seq<Cipher>, c: Cipher) {
    Supported(cfg, c) && c in allow
  }

  /** sk_SSL_CIPHER_find: the first place of c, or the length. */
  function Place(list: seq<Cipher>, c: Cipher): (k: nat)
    ensures k <= |list| && (k < |list| <==> c in list) && (k < |list| ==> list[k] == c)
    ensures forall j :: 0 <= j < k ==> list[j] != c
  {
    if list == [] then 0 else if list[0] == c then 0 else 1 + Place(list[1..], c)
  }

  lemma {:induction false} PlaceIsFirst(list: seq<Cipher>, c: Cipher, i: nat)
    requires i < |list| && list[i] == c
    ensures Place(list, c) <= i
  {
  }

  /** Positions lo..hi of the priority list are one group: flag 1 for all but the last. */
  predicate Group(flags: seq<nat>, lo: nat, hi: nat) {
    && lo <= hi < |flags| && (lo == 0 || flags[lo - 1] == 0) && flags[hi] == 0
    && forall i :: lo <= i < hi ==> flags[i] == 1
  }

  ghost predicate FlagsOk(flags: seq<nat>) {
    forall i :: 0 <= i < |flags| ==> flags[i] == 0 || flags[i] == 1
  }

  /** c is acceptable, in the first group that has an acceptable cipher, and no acceptable one
      of that group comes earlier in `allow`. */
  ghost predicate Best(cfg: Config, prio: seq<Cipher>, flags: seq<nat>, allow: seq<Cipher>, lo: nat, hi: nat, c: Cipher)
    requires |flags| == |prio|
  {
    && Group(flags, lo, hi)
    && Acceptable(cfg, allow, c) && c in prio[lo..hi + 1]
    && (forall i :: 0 <= i < lo ==> !Acceptable(cfg, allow, prio[i]))
    && (forall i :: lo <= i <= hi && Acceptable(cfg, allow, prio[i]) ==> Place(allow, c) <= Place(allow, prio[i]))
  }

  /** Some group ends at or after position i.  (In a well-formed list the last flag is 0, and
      every position does.) */
  ghost predicate Ended(flags: seq<nat>, i: nat) {
    exists j :: i <= j < |flags| && flags[j] == 0
  }

  /** The loop of ssl3_choose_cipher. */
  method ChooseFrom(cfg: Config, prio: seq<Cipher>, flags: seq<nat>, allow: seq<Cipher>) returns (r: Option<Cipher>)
    requires |flags| == |prio| && FlagsOk(flags)
    ensures r.None? <==> forall i :: 0 <= i < |prio| && Ended(flags, i) ==> !Acceptable(cfg, allow, prio[i])
    ensures r.Some? ==> exists lo, hi :: Best(cfg, prio, flags, allow, lo, hi, r.value)
  {
    hide Supported, MinOf, Place;
    var groupMin: int := -1;
    ghost var lo: nat := 0;
    for i := 0 to |prio|
      invariant lo <= i && (lo == 0 || flags[lo - 1] == 0) && forall k :: lo <= k < i ==> flags[k] == 1
      invariant forall k :: 0 <= k < lo ==> !Acceptable(cfg, allow, prio[k])
      invariant groupMin == -1 ==> forall k :: lo <= k < i ==> !Acceptable(cfg, allow, prio[k])
      invariant groupMin != -1 ==> 0 <= groupMin < |allow| && MinOf(cfg, prio, allow, lo, i, groupMin)
    {
      var c := prio[i];
      if Supported(cfg, c) && c in allow {
        var cipherIndex: int := Place(allow, c);
        OneMore(cfg, prio, allow, lo, i, groupMin);
        if flags[i] == 1 {
          if groupMin == -1 || groupMin > cipherIndex { groupMin := cipherIndex; }
        } else {
          if groupMin != -1 && groupMin < cipherIndex { cipherIndex := groupMin; }
          MinIsBest(cfg, prio, flags, allow, lo, i, cipherIndex);
          return Some(allow[cipherIndex]);
        }
      } else if groupMin != -1 {
        Skipped(cfg, prio, allow, lo, i, groupMin);
      }
      if flags[i] == 0 && groupMin != -1 {
        MinIsBest(cfg, prio, flags, allow, lo, i, groupMin);
        return Some(allow[groupMin]);
      }
      if flags[i] == 0 { lo := i + 1; }
    }
    r := None;
  }

  /** k is the least place in allow of an acceptable cipher among prio[lo..hi]. */
  ghost predicate MinOf(cfg: Config, prio: seq<Cipher>, allow: seq<Cipher>, lo: nat, hi: nat, k: int)
    requires lo <= hi <= |prio|
  {
    && 0 <= k < |allow| && Acceptable(cfg, allow, allow[k]) && allow[k] in prio[lo..hi] && Place(allow, allow[k]) == k
    && forall j :: lo <= j < hi && Acceptable(cfg, allow, prio[j]) ==> k <= Place(allow, prio[j])
  }

  /** Taking in one more position. */
  lemma {:induction false} OneMore(cfg: Config, prio: seq<Cipher>, allow: seq<Cipher>, lo: nat, i: nat, k: int)
    requires lo <= i < |prio| && Acceptable(cfg, allow, prio[i])
    requires if k == -1 then forall j :: lo <= j < i ==> !Acceptable(cfg, allow, prio[j]) else MinOf(cfg, prio, allow, lo, i, k)
    ensures var p := Place(allow, prio[i]);
      MinOf(cfg, prio, allow, lo, i + 1, if k == -1 || k > p then p else k)
  {
    hide Acceptable;
    assert prio[i] in allow by { AcceptableIn(cfg, allow, prio[i]); }
    assert prio[lo..i + 1] == prio[lo..i] + [prio[i]];
  }

  lemma {:induction false} AcceptableIn(cfg: Config, allow: seq<Cipher>, c: Cipher)
    requires Acceptable(cfg, allow, c)
    ensures c in allow && Supported(cfg, c)
  {
    hide Supported;
  }

  lemma {:induction false} Skipped(cfg: Config, prio: seq<Cipher>, allow: seq<Cipher>, lo: nat, i: nat, k: int)
    requires lo <= i < |prio| && !Acceptable(cfg, allow, prio[i]) && MinOf(cfg, prio, allow, lo, i, k)
    ensures MinOf(cfg, prio, allow, lo, i + 1, k)
  {
    hide Acceptable;
    assert prio[lo..i + 1] == prio[lo..i] + [prio[i]];
  }

  lemma {:induction false} MinIsBest(cfg: Config, prio: seq<Cipher>, flags: seq<nat>, allow: seq<Cipher>, lo: nat,
      hi: nat, k: nat)
    requires |flags| == |prio| && Group(flags, lo, hi) && MinOf(cfg, prio, allow, lo, hi + 1, k)
    requires forall i :: 0 <= i < lo ==> !Acceptable(cfg, allow, prio[i])
    ensures Best(cfg, prio, flags, allow, lo, hi, allow[k])
    ensures exists i :: 0 <= i < |prio| && Ended(flags, i) && Acceptable(cfg, allow, prio[i])
  {
    hide Acceptable;
    var j :| 0 <= j < |prio[lo..hi + 1]| && prio[lo..hi + 1][j] == allow[k];
    var i := lo + j;
    assert prio[i] == allow[k] && flags[hi] == 0;
    assert Ended(flags, i);
  }

  lemma {:induction false} BestIn(cfg: Config, prio: seq<Cipher>, flags: seq<nat>, allow: seq<Cipher>, lo: nat, hi: nat,
      c: Cipher)
    requires |flags| == |prio| && Best(cfg, prio, flags, allow, lo, hi, c)
    ensures c in prio && c in allow && Supported(cfg, c)
  {
    hide Supported;
  }

  /** ssl3_choose_cipher: with server preference the server's groups are tried in order and the
      client's order decides within a group; otherwise the client's order alone decides. */
  method ChooseCipher(cfg: Config, serverPreference: bool, client: Option<seq<Cipher>>, server: seq<Cipher>,
      flags: seq<nat>) returns (r: Option<Cipher>)
    requires |flags| == |server| && FlagsOk(flags)
    ensures client.None? ==> r.None?
    ensures client.Some? && serverPreference ==>
      && (r.None? <==> forall i :: 0 <= i < |server| && Ended(flags, i) ==> !Acceptable(cfg, client.value, server[i]))
      && (r.Some? ==> exists lo, hi :: Best(cfg, server, flags, client.value, lo, hi, r.value))
    ensures client.Some? && !serverPreference ==>
      && (r.None? <==> forall c :: c in client.value ==> !Acceptable(cfg, server, c))
      && (r.Some? ==> Acceptable(cfg, server, r.value) && r.value in client.value
                      && forall j :: 0 <= j < Place(client.value, r.value) ==> !Acceptable(cfg, server, client.value[j]))
    ensures r.Some? ==> client.Some? && r.value in client.value && r.value in server && Supported(cfg, r.value)
  {
    hide Acceptable, Supported;
    if client.None? { return None; }
    if serverPreference {
      r := ChooseFrom(cfg, server, flags, client.value);
      if r.Some? {
        ghost var lo, hi :| Best(cfg, server, flags, client.value, lo, hi, r.value);
        BestIn(cfg, server, flags, client.value, lo, hi, r.value);
      }
    } else {
      // no groups: every position ends its own
      var single := seq(|client.value|, i => 0);
      r := ChooseFrom(cfg, client.value, single, server);
      forall i | 0 <= i < |client.value| ensures Ended(single, i) { assert single[i] == 0; }
      if r.Some? {
        ghost var lo, hi :| Best(cfg, client.value, single, server, lo, hi, r.value);
        SingleGroups(cfg, client.value, single, server, lo, hi, r.value);
        AcceptableIn(cfg, server, r.value);
      }
    }
  }

  lemma {:induction false} SingleGroups(cfg: Config, prio: seq<Cipher>, flags: seq<nat>, allow: seq<Cipher>, lo: nat,
      hi: nat, c: Cipher)
    requires |flags| == |prio| && Best(cfg, prio, flags, allow, lo, hi, c) && forall i :: 0 <= i < |flags| ==> flags[i] == 0
    ensures c in prio && Place(prio, c) == lo && prio[lo] == c && Acceptable(cfg, allow, c)
    ensures forall j :: 0 <= j < lo ==> !Acceptable(cfg, allow, prio[j])
  {
    hide Acceptable;
    assert flags[lo] == 0;
    assert lo == hi && prio[lo..hi + 1] == [prio[lo]];
    PlaceIsFirst(prio, c, lo);
  }

  /** In a well-formed list, where the last flag is 0, nothing acceptable is passed over. */
  lemma {:induction false} NothingPassedOver(cfg: Config, prio: seq<Cipher>, flags: seq<nat>, allow: seq<Cipher>)
    requires |flags| == |prio| && (flags != [] ==> flags[|flags| - 1] == 0)
    ensures (forall i :: 0 <= i < |prio| && Ended(flags, i) ==> !Acceptable(cfg, allow, prio[i]))
       <==> forall i :: 0 <= i < |prio| ==> !Acceptable(cfg, allow, prio[i])
  {
    hide Acceptable;
    forall i | 0 <= i < |prio| ensures Ended(flags, i) { assert flags[|flags| - 1] == 0; }
  }
}
