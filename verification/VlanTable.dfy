/**
 The VLAN table of the Ethernet switch (the VLAN functions of supports/rtk/rtk_api.c over the
 table driver supports/rtk/asicdrv/rtl8307h_asicdrv_vlan.c): 32 buckets of 4 entries, hashed by
 the low 5 bits of the VLAN id, and a CAM of 16 entries for what does not fit.

 The driver packs an entry into a table word that has no room for the low 5 bits of the id:
 they are recovered from the index.  Words are modelled as numbers: as the packed fields do not
 overlap, shifting and or-ing them together is adding multiples of powers of two.

 The abstract view is a map from VLAN id to entry.
 */
module VlanTable {

  const VID_MAX: nat := 0xFFF
  const FID_MAX: nat := 14
  const TABLE: nat := 128
  const CAM: nat := 16
  // VLAN_IVL is 0 and VLAN_SVL is 1
  const IVLSVL_END: nat := 2
  // one bit for each of the ports that an 8-bit port mask can name
  const ALL_PORTS: nat := 0xFF

  datatype Ret = OK | Failed | VlanVid | L2Fid | Msti | TblFull | EntryNotFound

  /** rtl8307h_vlanTbl_param_t, without the field vbfwd, which is always 0 */
  datatype Param = Param(vid: nat, member: nat, untag: nat, fid: nat, ucslkfid: nat, valid: bool)

  const BLANK := Param(0, 0, 0, 0, 0, false)

  predicate Fits(p: Param) {
    p.vid <= VID_MAX && p.member < 256 && p.untag < 256 && p.fid < 16 && p.ucslkfid < 2
  }

  // ---------------------------------------------------------------- the packed words

  /** _rtl8307h_vlanTbl_param2entry */
  function PackTable(p: Param): nat {
    p.member % 256 * 4194304 + p.untag % 256 * 16384 + p.fid % 16 * 1024 + p.ucslkfid % 2 * 512
    + p.vid / 32 % 128 * 2 + (if p.valid then 1 else 0)
  }

  /** _rtl8307h_vlanTbl_entry2Param */
  function UnpackTable(w: nat, index: nat): Param {
    Param(w / 2 % 128 * 32 + index / 4, w / 4194304 % 256, w / 16384 % 256, w / 1024 % 16, w / 512 % 2, w % 2 == 1)
  }

  /** _rtl8307h_vlanCam_param2entry */
  function PackCam(p: Param): (nat, nat) {
    (p.untag % 256 * 524288 + p.fid % 16 * 32768 + p.ucslkfid % 2 * 16384 + p.vid % 4096 * 2 + (if p.valid then 1 else 0),
     p.member % 256)
  }

  /** _rtl8307h_vlanCam_entry2Param */
  function UnpackCam(w: (nat, nat)): Param {
    Param(w.0 / 2 % 4096, w.1 % 256, w.0 / 524288 % 256, w.0 / 32768 % 16, w.0 / 16384 % 2, w.0 % 2 == 1)
  }

  lemma ValidField(w: nat, x: nat, high: nat)
    requires x < 2 && w == x + 2 * high
    ensures w % 2 == x
  {
  }

  // reading back a field from between what is below it and what is above it
  lemma TagField(w: nat, low: nat, x: nat, high: nat)
    requires low < 2 && x < 128 && w == low + 2 * x + 256 * high
    ensures w / 2 % 128 == x
  {
    assert w / 2 == x + 128 * high;
  }

  lemma LookupField(w: nat, low: nat, x: nat, high: nat)
    requires low < 512 && x < 2 && w == low + 512 * x + 1024 * high
    ensures w / 512 % 2 == x
  {
    assert w / 512 == x + 2 * high;
  }

  lemma FidField(w: nat, low: nat, x: nat, high: nat)
    requires low < 1024 && x < 16 && w == low + 1024 * x + 16384 * high
    ensures w / 1024 % 16 == x
  {
    assert w / 1024 == x + 16 * high;
  }

  lemma UntagField(w: nat, low: nat, x: nat, high: nat)
    requires low < 16384 && x < 256 && w == low + 16384 * x + 4194304 * high
    ensures w / 16384 % 256 == x
  {
    assert w / 16384 == x + 256 * high;
  }

  lemma MemberField(w: nat, low: nat, x: nat, high: nat)
    requires low < 4194304 && x < 256 && w == low + 4194304 * x + 1073741824 * high
    ensures w / 4194304 % 256 == x
  {
    assert w / 4194304 == x + 256 * high;
  }

  lemma CamVidField(w: nat, low: nat, x: nat, high: nat)
    requires low < 2 && x < 4096 && w == low + 2 * x + 8192 * high
    ensures w / 2 % 4096 == x
  {
    assert w / 2 == x + 4096 * high;
  }

  lemma CamLookupField(w: nat, low: nat, x: nat, high: nat)
    requires low < 16384 && x < 2 && w == low + 16384 * x + 32768 * high
    ensures w / 16384 % 2 == x
  {
    assert w / 16384 == x + 2 * high;
  }

  lemma CamFidField(w: nat, low: nat, x: nat, high: nat)
    requires low < 32768 && x < 16 && w == low + 32768 * x + 524288 * high
    ensures w / 32768 % 16 == x
  {
    assert w / 32768 == x + 16 * high;
  }

  lemma CamUntagField(w: nat, low: nat, x: nat, high: nat)
    requires low < 524288 && x < 256 && w == low + 524288 * x + 134217728 * high
    ensures w / 524288 % 256 == x
  {
    assert w / 524288 == x + 256 * high;
  }

  // the words as sums, and the fields read back from such sums
  lemma TableWord(p: Param)
    requires Fits(p)
    ensures PackTable(p) ==
      4194304 * p.member + 16384 * p.untag + 1024 * p.fid + 512 * p.ucslkfid + 2 * (p.vid / 32) + (if p.valid then 1 else 0)
  {
    assert p.vid / 32 % 128 == p.vid / 32;
  }

  lemma TableFields(w: nat, member: nat, untag: nat, fid: nat, ucslkfid: nat, tag: nat, valid: nat)
    requires member < 256 && untag < 256 && fid < 16 && ucslkfid < 2 && tag < 128 && valid < 2
    requires w == 4194304 * member + 16384 * untag + 1024 * fid + 512 * ucslkfid + 2 * tag + valid
    ensures w % 2 == valid && w / 2 % 128 == tag && w / 512 % 2 == ucslkfid
    ensures w / 1024 % 16 == fid && w / 16384 % 256 == untag && w / 4194304 % 256 == member
  {
    ValidField(w, valid, 2097152 * member + 8192 * untag + 512 * fid + 256 * ucslkfid + tag);
    TagField(w, valid, tag, 16384 * member + 64 * untag + 4 * fid + 2 * ucslkfid);
    LookupField(w, 2 * tag + valid, ucslkfid, 4096 * member + 16 * untag + fid);
    FidField(w, 512 * ucslkfid + 2 * tag + valid, fid, 256 * member + untag);
    UntagField(w, 1024 * fid + 512 * ucslkfid + 2 * tag + valid, untag, member);
    MemberField(w, 16384 * untag + 1024 * fid + 512 * ucslkfid + 2 * tag + valid, member, 0);
  }

  lemma CamWord(p: Param)
    requires Fits(p)
    ensures PackCam(p) ==
      (524288 * p.untag + 32768 * p.fid + 16384 * p.ucslkfid + 2 * p.vid + (if p.valid then 1 else 0), p.member)
  {
  }

  lemma CamFields(w: nat, untag: nat, fid: nat, ucslkfid: nat, vid: nat, valid: nat)
    requires untag < 256 && fid < 16 && ucslkfid < 2 && vid < 4096 && valid < 2
    requires w == 524288 * untag + 32768 * fid + 16384 * ucslkfid + 2 * vid + valid
    ensures w % 2 == valid && w / 2 % 4096 == vid && w / 16384 % 2 == ucslkfid
    ensures w / 32768 % 16 == fid && w / 524288 % 256 == untag
  {
    ValidField(w, valid, 262144 * untag + 16384 * fid + 8192 * ucslkfid + vid);
    CamVidField(w, valid, vid, 64 * untag + 4 * fid + 2 * ucslkfid);
    CamLookupField(w, 2 * vid + valid, ucslkfid, 16 * untag + fid);
    CamFidField(w, 16384 * ucslkfid + 2 * vid + valid, fid, untag);
    CamUntagField(w, 32768 * fid + 16384 * ucslkfid + 2 * vid + valid, untag, 0);
  }

  // 2 to the power of n
  function Pow2(n: nat): (r: nat)
    ensures r > 0
  {
    if n == 0 then 1 else 2 * Pow2(n - 1)
  }

  /** width bits of a word, from bit low on. */
  function Bits(w: nat, low: nat, width: nat): nat {
    w / Pow2(low) % Pow2(width)
  }

  lemma Powers()
    ensures Pow2(0) == 1 && Pow2(1) == 2 && Pow2(4) == 16 && Pow2(7) == 128 && Pow2(8) == 256
    ensures Pow2(9) == 512 && Pow2(10) == 1024 && Pow2(12) == 4096 && Pow2(14) == 16384
    ensures Pow2(15) == 32768 && Pow2(19) == 524288 && Pow2(22) == 4194304
  {
    assert Pow2(10) == 1024;
    assert Pow2(20) == 1024 * 1024;
  }

  /** Where the hardware finds each field in a table word. */
  lemma TableLayout(p: Param)
    requires Fits(p)
    ensures var w := PackTable(p);
            && Bits(w, 0, 1) == (if p.valid then 1 else 0) && Bits(w, 1, 7) == p.vid / 32
            && Bits(w, 9, 1) == p.ucslkfid && Bits(w, 10, 4) == p.fid
            && Bits(w, 14, 8) == p.untag && Bits(w, 22, 8) == p.member
  {
    Powers();
    TableWord(p);
    hide PackTable, Pow2;
    TableFields(PackTable(p), p.member, p.untag, p.fid, p.ucslkfid, p.vid / 32, if p.valid then 1 else 0);
  }

  /** ... and in the two words of the CAM. */
  lemma CamLayout(p: Param)
    requires Fits(p)
    ensures var (w, w1) := PackCam(p);
            && Bits(w, 0, 1) == (if p.valid then 1 else 0) && Bits(w, 1, 12) == p.vid
            && Bits(w, 14, 1) == p.ucslkfid && Bits(w, 15, 4) == p.fid
            && Bits(w, 19, 8) == p.untag && w1 == p.member
  {
    Powers();
    CamWord(p);
    hide PackCam, Pow2;
    CamFields(PackCam(p).0, p.untag, p.fid, p.ucslkfid, p.vid, if p.valid then 1 else 0);
  }

  /** A table word gives back the entry when it is read from the bucket the id hashes to. */
  lemma TableRoundTrip(p: Param, index: nat)
    requires Fits(p) && index / 4 == p.vid % 32
    ensures UnpackTable(PackTable(p), index) == p
  {
    TableWord(p);
    hide PackTable;
    TableFields(PackTable(p), p.member, p.untag, p.fid, p.ucslkfid, p.vid / 32, if p.valid then 1 else 0);
  }

  lemma CamRoundTrip(p: Param)
    requires Fits(p)
    ensures UnpackCam(PackCam(p)) == p
  {
    CamWord(p);
    hide PackCam;
    CamFields(PackCam(p).0, p.untag, p.fid, p.ucslkfid, p.vid, if p.valid then 1 else 0);
  }

  /** An invalid word reads as an invalid entry wherever it stands. */
  lemma BlankReadsInvalid(index: nat)
    ensures !UnpackTable(PackTable(BLANK), index).valid && !UnpackCam(PackCam(BLANK)).valid
  {
  }

  // ---------------------------------------------------------------- the abstract map

  datatype Vlan = Vlan(member: nat, untag: nat, fid: nat, ucslkfid: nat)

  function VlanOf(p: Param): Vlan {
    Vlan(p.member, p.untag, p.fid, p.ucslkfid)
  }

  /** All entries as the driver reads them: first the table, then the CAM. */
  function Slots(table: seq<nat>, cam: seq<(nat, nat)>): (s: seq<Param>)
    requires |table| == TABLE && |cam| == CAM
    ensures |s| == TABLE + CAM
  {
    seq(TABLE + CAM, i requires 0 <= i < TABLE + CAM =>
      if i < TABLE then UnpackTable(table[i], i) else UnpackCam(cam[i - TABLE]))
  }

  predicate Holds(s: seq<Param>, i: nat, vid: nat) {
    i < |s| && s[i].valid && s[i].vid == vid
  }

  /** No id is valid twice across table and CAM. */
  predicate Unique(s: seq<Param>) {
    forall i, j :: 0 <= i < j < |s| && s[i].valid && s[j].valid ==> s[i].vid != s[j].vid
  }

  /** A valid entry has a port in one of its masks. */
  predicate Useful(s: seq<Param>) {
    forall i :: 0 <= i < |s| && s[i].valid ==> s[i].member != 0 || s[i].untag != 0
  }

  /** A valid table entry lies in the bucket of its id. */
  predicate Bucketed(s: seq<Param>) {
    forall i :: 0 <= i < |s| && i < TABLE && s[i].valid ==> s[i].vid % 32 == i / 4
  }

  ghost function AsMap(s: seq<Param>): map<nat, Vlan> {
    map v: nat | v <= VID_MAX && (exists i: nat :: Holds(s, i, v)) :: ValueOf(s, v)
  }

  ghost function ValueOf(s: seq<Param>, v: nat): Vlan
    requires exists i: nat :: Holds(s, i, v)
  {
    var i: nat :| Holds(s, i, v);
    VlanOf(s[i])
  }

  lemma ValueIs(s: seq<Param>, i: nat)
    requires Unique(s) && i < |s| && s[i].valid
    ensures (exists k: nat :: Holds(s, k, s[i].vid)) && ValueOf(s, s[i].vid) == VlanOf(s[i])
  {
    assert Holds(s, i, s[i].vid);
  }

  /** Writing a valid entry for an id that no other slot holds updates the map at that id. */
  lemma StoreSlot(s: seq<Param>, i: nat, p: Param)
    requires Unique(s) && i < |s| && p.valid && p.vid <= VID_MAX
    requires s[i].valid ==> s[i].vid == p.vid
    requires forall j :: 0 <= j < |s| && j != i && s[j].valid ==> s[j].vid != p.vid
    ensures Unique(s[i := p]) && AsMap(s[i := p]) == AsMap(s)[p.vid := VlanOf(p)]
  {
    var t := s[i := p];
    ValueIs(t, i);
    forall v: nat | v != p.vid
      ensures (exists k: nat :: Holds(t, k, v)) <==> (exists k: nat :: Holds(s, k, v))
      ensures (exists k: nat :: Holds(s, k, v)) ==> ValueOf(t, v) == ValueOf(s, v)
    {
      SameElsewhere(s, t, i, v);
    }
  }

  /** Writing an invalid entry removes what the slot held. */
  lemma EraseSlot(s: seq<Param>, i: nat, p: Param)
    requires Unique(s) && i < |s| && !p.valid
    ensures Unique(s[i := p])
    ensures AsMap(s[i := p]) == AsMap(s) - (if s[i].valid then {s[i].vid} else {})
  {
    var t := s[i := p];
    forall v: nat | !(s[i].valid && s[i].vid == v)
      ensures (exists k: nat :: Holds(t, k, v)) <==> (exists k: nat :: Holds(s, k, v))
      ensures (exists k: nat :: Holds(s, k, v)) ==> ValueOf(t, v) == ValueOf(s, v)
    {
      SameElsewhere(s, t, i, v);
    }
    if s[i].valid {
      GoneFrom(s, t, i, s[i].vid);
    }
    hide Unique, ValueOf, Holds;
  }

  lemma GoneFrom(s: seq<Param>, t: seq<Param>, i: nat, v: nat)
    requires Unique(s) && i < |s| == |t| && t == s[i := t[i]] && Holds(s, i, v) && !t[i].valid
    ensures forall k: nat :: !Holds(t, k, v)
  {
  }

  // an id that slot i holds neither before nor after is not affected
  lemma SameElsewhere(s: seq<Param>, t: seq<Param>, i: nat, v: nat)
    requires Unique(s) && Unique(t) && i < |s| == |t| && t == s[i := t[i]]
    requires !Holds(s, i, v) && !Holds(t, i, v)
    ensures (exists k: nat :: Holds(t, k, v)) <==> (exists k: nat :: Holds(s, k, v))
    ensures (exists k: nat :: Holds(s, k, v)) ==> ValueOf(t, v) == ValueOf(s, v)
  {
    if k: nat :| Holds(s, k, v) {
      assert Holds(t, k, v);
      ValueIs(s, k);
      ValueIs(t, k);
    }
    if k: nat :| Holds(t, k, v) {
      assert Holds(s, k, v);
    }
  }

  lemma AbsentFromMap(s: seq<Param>, v: nat)
    requires forall i :: 0 <= i < |s| ==> !Holds(s, i, v)
    ensures v !in AsMap(s)
  {
  }

  lemma PresentInMap(s: seq<Param>, i: nat)
    requires Unique(s) && i < |s| && s[i].valid && s[i].vid <= VID_MAX
    ensures s[i].vid in AsMap(s) && AsMap(s)[s[i].vid] == VlanOf(s[i])
  {
    ValueIs(s, i);
  }

  /** What the map says of an id is what its one valid entry in table or CAM says. */
  lemma EntryOf(s: seq<Param>, v: nat) returns (i: nat)
    requires Unique(s) && v in AsMap(s)
    ensures Holds(s, i, v)
    ensures AsMap(s)[v].member == s[i].member && AsMap(s)[v].untag == s[i].untag
    ensures AsMap(s)[v].fid == s[i].fid && AsMap(s)[v].ucslkfid == s[i].ucslkfid
  {
    i :| Holds(s, i, v);
    PresentInMap(s, i);
  }

  // ---------------------------------------------------------------- the switch

  /** The bucket of an id has no free entry, and neither has the CAM. */
  predicate Full(s: seq<Param>, vid: nat)
    requires |s| == TABLE + CAM
  {
    && (forall i :: vid % 32 * 4 <= i < vid % 32 * 4 + 4 ==> s[i].valid)
    && (forall i :: TABLE <= i < TABLE + CAM ==> s[i].valid)
  }

  class Switch {
    const table: array<nat>
    const cam: array<(nat, nat)>
    var shared: bool                   // IvlSvlVlan == VLAN_SVL

    ghost predicate Sized() {
      table.Length == TABLE && cam.Length == CAM
    }

    ghost function Entries(): seq<Param>
      reads table, cam
      requires Sized()
    {
      Slots(table[..], cam[..])
    }

    ghost predicate Valid()
      reads table, cam
    {
      Sized() && Unique(Entries()) && Useful(Entries()) && Bucketed(Entries())
    }

    ghost function Vlans(): map<nat, Vlan>
      reads table, cam
      requires Sized()
    {
      AsMap(Entries())
    }

    // rtl8307h_vlanTbl_entry_set and rtl8307h_vlanCam_entry_set
    method SetTable(index: nat, p: Param)
      requires Sized() && index < TABLE
      modifies table
      ensures Entries() == old(Entries())[index := UnpackTable(PackTable(p), index)]
    {
      ghost var before := Entries();
      table[index] := PackTable(p);
      assert table[..] == old(table[..])[index := PackTable(p)];
      hide PackTable, UnpackTable, UnpackCam;
    }

    method SetCam(index: nat, p: Param)
      requires Sized() && index < CAM
      modifies cam
      ensures Entries() == old(Entries())[TABLE + index := UnpackCam(PackCam(p))]
    {
      cam[index] := PackCam(p);
      assert cam[..] == old(cam[..])[index := PackCam(p)];
      hide PackCam, UnpackTable, UnpackCam;
    }

    // rtl8307h_vlanTbl_entry_get and rtl8307h_vlanCam_entry_get
    method GetTable(index: nat) returns (p: Param)
      requires Sized() && index < TABLE
      ensures p == Entries()[index]
    {
      p := UnpackTable(table[index], index);
    }

    method GetCam(index: nat) returns (p: Param)
      requires Sized() && index < CAM
      ensures p == Entries()[TABLE + index]
    {
      p := UnpackCam(cam[index]);
    }

    /** The search that rtk_vlan_set, rtk_vlan_get and rtk_vlan_destroy begin with: hit is 1 for
        a table entry, 2 for a CAM entry and 0 for none; 0xffff stands for no free entry. */
    method Search(vid: nat) returns (hit: nat, hitIndex: nat, free: nat, camFree: nat)
      requires Valid() && vid <= VID_MAX
      ensures hit <= 2
      ensures hit == 1 ==> vid % 32 * 4 <= hitIndex < vid % 32 * 4 + 4 && Holds(Entries(), hitIndex, vid)
      ensures hit == 2 ==> hitIndex < CAM && Holds(Entries(), TABLE + hitIndex, vid)
      ensures hit == 0 ==> forall i :: 0 <= i < TABLE + CAM ==> !Holds(Entries(), i, vid)
      ensures hit == 0 && free != 0xffff ==> vid % 32 * 4 <= free < vid % 32 * 4 + 4 && !Entries()[free].valid
      ensures hit == 0 && camFree != 0xffff ==> camFree < CAM && !Entries()[TABLE + camFree].valid
      ensures hit == 0 ==> (free == 0xffff && camFree == 0xffff <==> Full(Entries(), vid))
    {
      hide UnpackTable, UnpackCam, Slots, Unique, Useful;
      hit, hitIndex, free, camFree := 0, 0xffff, 0xffff, 0xffff;
      var first := vid % 32 * 4;
      var index := first;
      while index < first + 4
        invariant first <= index <= first + 4 && hit == 0
        invariant forall i :: first <= i < index ==> !Holds(Entries(), i, vid)
        invariant free != 0xffff ==> first <= free < index && !Entries()[free].valid
        invariant free == 0xffff ==> forall i :: first <= i < index ==> Entries()[i].valid
      {
        var p := GetTable(index);
        if !p.valid {
          free := index;
        }
        if p.valid && p.vid == vid {
          hit, hitIndex := 1, index;
          break;
        }
        index := index + 1;
      }
      if hit == 0 {
        index := 0;
        while index < CAM
          invariant index <= CAM && hit == 0
          invariant forall i :: TABLE <= i < TABLE + index ==> !Holds(Entries(), i, vid)
          invariant camFree != 0xffff ==> camFree < index && !Entries()[TABLE + camFree].valid
          invariant camFree == 0xffff ==> forall i :: TABLE <= i < TABLE + index ==> Entries()[i].valid
        {
          var p := GetCam(index);
          if !p.valid {
            camFree := index;
          }
          if p.valid && p.vid == vid {
            hit, hitIndex := 2, index;
            break;
          }
          index := index + 1;
        }
      }
    }

    /** rtk_vlan_set.  The masks are cut to 8 bits by the assignment to the entry, before they
        are tested: masks that name only ports above 7 delete the VLAN like empty ones. */
    method Set(vid: nat, mbrmsk: nat, untagmsk: nat, fid: nat) returns (ret: Ret)
      requires Valid()
      modifies table, cam
      ensures Valid()
      ensures ret == VlanVid <==> vid > VID_MAX
      ensures ret == L2Fid <==> vid <= VID_MAX && fid > FID_MAX
      ensures ret == TblFull <==>
                vid <= VID_MAX && fid <= FID_MAX && vid !in old(Vlans()) && Full(old(Entries()), vid)
      ensures ret == OK || ret == VlanVid || ret == L2Fid || ret == TblFull
      ensures ret == OK ==> Vlans() == SetSpec(old(Vlans()), vid, mbrmsk, untagmsk, fid, shared)
      // whether or not the id was there before
      ensures ret == OK && (mbrmsk % 256 != 0 || untagmsk % 256 != 0) ==>
                && vid in Vlans() && Vlans()[vid].member == mbrmsk % 256 && Vlans()[vid].untag == untagmsk % 256
                && Vlans()[vid].fid == fid && Vlans()[vid].ucslkfid == if shared then 1 else 0
      ensures ret == OK && mbrmsk % 256 == 0 && untagmsk % 256 == 0 ==> vid !in Vlans()
      ensures forall v :: v != vid ==> (v in Vlans() <==> v in old(Vlans()))
      ensures forall v :: v != vid && v in Vlans() ==> Vlans()[v] == old(Vlans())[v]
      ensures ret != OK ==> Vlans() == old(Vlans())
    {
      hide PackTable, UnpackTable, PackCam, UnpackCam, Slots, AsMap, Unique, Useful, Bucketed, Full, SetSpec, VlanOf;
      if vid > VID_MAX {
        return VlanVid;
      }
      if fid > FID_MAX {
        return L2Fid;
      }
      var hit, hitIndex, free, camFree := Search(vid);
      var p := Param(vid, mbrmsk % 256, untagmsk % 256, fid, if shared then 1 else 0, true);
      if p.member == 0 && p.untag == 0 {
        p := p.(valid := false);
      }
      SlotFits(Entries(), vid, hit, hitIndex);
      SetSpecIs(Vlans(), p, mbrmsk, untagmsk, shared);
      SetSpecMeans(Vlans(), vid, mbrmsk, untagmsk, fid, shared);
      var stored := Store(p, hit, hitIndex, free, camFree);
      return if stored then OK else TblFull;
    }

    // the end of rtk_vlan_set: the entry goes where the id is, else into the bucket, else into the CAM
    method Store(p: Param, hit: nat, hitIndex: nat, free: nat, camFree: nat) returns (stored: bool)
      requires Valid() && Fits(p) && (p.valid <==> p.member != 0 || p.untag != 0) && hit <= 2
      requires hit == 1 ==> p.vid % 32 * 4 <= hitIndex < p.vid % 32 * 4 + 4 && Holds(Entries(), hitIndex, p.vid)
      requires hit == 2 ==> hitIndex < CAM && Holds(Entries(), TABLE + hitIndex, p.vid)
      requires hit == 0 ==> forall i :: 0 <= i < TABLE + CAM ==> !Holds(Entries(), i, p.vid)
      requires hit == 0 && free != 0xffff ==> p.vid % 32 * 4 <= free < p.vid % 32 * 4 + 4 && !Entries()[free].valid
      requires hit == 0 && camFree != 0xffff ==> camFree < CAM && !Entries()[TABLE + camFree].valid
      modifies table, cam
      ensures Valid() && stored == (hit != 0 || free != 0xffff || camFree != 0xffff)
      ensures Vlans() == if !stored then old(Vlans())
                         else if p.valid then old(Vlans())[p.vid := VlanOf(p)] else old(Vlans()) - {p.vid}
    {
      hide PackTable, UnpackTable, PackCam, UnpackCam, Slots, AsMap, Unique, Useful, Bucketed;
      stored := true;
      if hit == 1 || (hit == 0 && free != 0xffff) {
        var i := if hit == 1 then hitIndex else free;
        TableRoundTrip(p, i);
        WriteSlot(Entries(), i, p);
        SetTable(i, p);
      } else if hit == 2 || camFree != 0xffff {
        var i := if hit == 2 then hitIndex else camFree;
        CamRoundTrip(p);
        WriteSlot(Entries(), TABLE + i, p);
        SetCam(i, p);
      } else {
        stored := false;
      }
    }

    /** What is set is what is got back. */
    method SetThenGet(vid: nat, mbrmsk: nat, untagmsk: nat, fid: nat)
      returns (set_: Ret, got: Ret, member: nat, untag: nat, f: nat)
      requires Valid()
      modifies table, cam
      ensures Valid()
      ensures set_ == OK && (mbrmsk % 256 != 0 || untagmsk % 256 != 0) ==>
                got == OK && member == mbrmsk % 256 && untag == untagmsk % 256 && f == fid
      ensures set_ == OK && mbrmsk % 256 == 0 && untagmsk % 256 == 0 ==> got == EntryNotFound
    {
      hide AsMap, Unique, Useful, Bucketed, Slots, Full, SetSpec;
      set_ := Set(vid, mbrmsk, untagmsk, fid);
      got, member, untag, f := Get(vid);
    }

    /** rtk_vlan_get */
    method Get(vid: nat) returns (ret: Ret, member: nat, untag: nat, fid: nat)
      requires Valid()
      ensures ret == VlanVid <==> vid > VID_MAX
      ensures ret == EntryNotFound <==> vid <= VID_MAX && vid !in Vlans()
      ensures ret == OK <==> vid in Vlans()
      ensures ret == OK ==>
                var v := Vlans()[vid];
                member == v.member && untag == v.untag && fid == v.fid && (member != 0 || untag != 0)
      ensures ret == OK ==> member < 256 && untag < 256
    {
      member, untag, fid := 0, 0, 0;
      OnlyIds(Entries());
      if vid > VID_MAX {
        return VlanVid, 0, 0, 0;
      }
      var hit, hitIndex, free, camFree := Search(vid);
      SlotFits(Entries(), vid, hit, hitIndex);
      hide UnpackTable, UnpackCam, Slots, AsMap, Unique, Bucketed, Full;
      if hit == 0 {
        return EntryNotFound, 0, 0, 0;
      }
      ghost var i := if hit == 1 then hitIndex else TABLE + hitIndex;
      PresentInMap(Entries(), i);
      ReadFits(table[..], cam[..], i);
      var p;
      if hit == 1 {
        p := GetTable(hitIndex);
      } else {
        p := GetCam(hitIndex);
      }
      assert p == Entries()[i];
      return OK, p.member, p.untag, p.fid;
    }

    /** rtk_vlan_destroy */
    method Destroy(vid: nat) returns (ret: Ret)
      requires Valid()
      modifies table, cam
      ensures Valid()
      ensures ret == VlanVid <==> vid > VID_MAX
      ensures ret == EntryNotFound <==> vid <= VID_MAX && vid !in old(Vlans())
      ensures ret == OK <==> vid in old(Vlans())
      ensures Vlans() == old(Vlans()) - {vid}
    {
      OnlyIds(Entries());
      if vid > VID_MAX {
        return VlanVid;
      }
      var hit, hitIndex, free, camFree := Search(vid);
      SlotFits(Entries(), vid, hit, hitIndex);
      hide PackTable, UnpackTable, PackCam, UnpackCam, Slots, AsMap, Unique, Useful, Bucketed;
      if hit == 0 {
        return EntryNotFound;
      }
      BlankReadsInvalid(hitIndex);
      if hit == 1 {
        ClearSlot(Entries(), hitIndex, UnpackTable(PackTable(BLANK), hitIndex));
        SetTable(hitIndex, BLANK);
      } else {
        ClearSlot(Entries(), TABLE + hitIndex, UnpackCam(PackCam(BLANK)));
        SetCam(hitIndex, BLANK);
      }
      return OK;
    }

    /** rtk_vlan_ivlsvlMode_set: the mode is noted, and no entry changes. */
    method IvlSvlModeSet(ivlsvl: nat) returns (ret: Ret)
      requires Valid()
      modifies this`shared
      ensures Valid() && Vlans() == old(Vlans())
      ensures ret == if ivlsvl >= IVLSVL_END then Failed else OK
      ensures shared == if ret == OK then ivlsvl == 1 else old(shared)
    {
      if ivlsvl >= IVLSVL_END {
        return Failed;
      }
      shared := ivlsvl == 1;
      return OK;
    }

    /** rtk_vlan_stg_set: an existing VLAN gets the fid and stays; it goes through rtk_vlan_set,
        which also rewrites ucslkfid from the present mode. */
    method StgSet(vid: nat, stg: nat) returns (ret: Ret)
      requires Valid()
      modifies table, cam
      ensures Valid()
      ensures ret == VlanVid <==> vid > VID_MAX
      ensures ret == Msti <==> vid <= VID_MAX && stg > FID_MAX
      ensures ret == EntryNotFound <==> vid <= VID_MAX && stg <= FID_MAX && vid !in old(Vlans())
      ensures ret == OK <==> vid in old(Vlans()) && stg <= FID_MAX
      ensures ret == OK ==> Vlans() == StgSpec(old(Vlans()), vid, stg, shared)
      // so nothing but the fid changes exactly when the entry was written in the present mode
      ensures ret == OK ==>
                (Vlans() == old(Vlans())[vid := old(Vlans())[vid].(fid := stg)]
                 <==> old(Vlans())[vid].ucslkfid == Mode(shared))
      ensures ret != OK ==> Vlans() == old(Vlans())
    {
      OnlyIds(Entries());
      hide AsMap, Unique, Useful, Bucketed, Slots, Full;
      if vid > VID_MAX {
        return VlanVid;
      }
      if stg > FID_MAX {
        return Msti;
      }
      var got, member, untag, fid := Get(vid);
      if got != OK {
        return got;
      }
      ghost var before := Vlans();
      SetSpecKeeps(before, vid, member, untag, stg, shared);
      hide SetSpec;
      StgOnlyFid(before, vid, stg, shared);
      hide StgSpec;
      ret := Set(vid, member, untag, stg);
    }

    /** rtk_vlan_stg_get */
    method StgGet(vid: nat) returns (ret: Ret, stg: nat)
      requires Valid()
      ensures ret == VlanVid <==> vid > VID_MAX
      ensures ret == EntryNotFound <==> vid <= VID_MAX && vid !in Vlans()
      ensures ret == OK ==> vid in Vlans() && stg == Vlans()[vid].fid
    {
      var got, member, untag, fid := Get(vid);
      return got, fid;
    }

    /** rtk_vlan_init: after the flush, which clears table and CAM, the default VLAN is the only one. */
    method Init()
      requires Sized()
      modifies this, table, cam
      ensures Valid() && !shared
      ensures Vlans() == map[1 := Vlan(ALL_PORTS, ALL_PORTS, 0, 0)]
    {
      hide PackTable, UnpackTable, PackCam, UnpackCam, Slots, AsMap, Unique, Useful, Bucketed;
      Flush();
      shared := false;
      var p := Param(1, ALL_PORTS, ALL_PORTS, 0, 0, true);
      AllInvalid(Entries());
      TableRoundTrip(p, 4);
      WriteSlot(Entries(), 4, p);
      SetTable(4, p);
      for index := 5 to 8
        invariant Valid() && !shared && Vlans() == map[1 := VlanOf(p)]
        invariant forall i :: 5 <= i < 8 ==> !Entries()[i].valid
      {
        BlankReadsInvalid(index);
        ClearSlot(Entries(), index, UnpackTable(PackTable(BLANK), index));
        SetTable(index, BLANK);
      }
    }

    // rtl8307h_vlan_flush_set: the hardware clears every entry
    method Flush()
      requires Sized()
      modifies table, cam
      ensures forall i :: 0 <= i < TABLE + CAM ==> !Entries()[i].valid
    {
      for i := 0 to TABLE
        invariant forall k :: 0 <= k < i ==> table[k] == 0
      {
        table[i] := 0;
      }
      for i := 0 to CAM
        invariant forall k :: 0 <= k < i ==> cam[k] == (0, 0)
        invariant forall k :: 0 <= k < TABLE ==> table[k] == 0
      {
        cam[i] := (0, 0);
      }
    }
  }

  lemma SetSpecIs(m: map<nat, Vlan>, p: Param, mbrmsk: nat, untagmsk: nat, shared: bool)
    requires p.member == mbrmsk % 256 && p.untag == untagmsk % 256 && p.ucslkfid == Mode(shared)
    requires p.valid <==> p.member != 0 || p.untag != 0
    ensures SetSpec(m, p.vid, mbrmsk, untagmsk, p.fid, shared) == if p.valid then m[p.vid := VlanOf(p)] else m - {p.vid}
  {
  }

  lemma SetSpecMeans(m: map<nat, Vlan>, vid: nat, mbrmsk: nat, untagmsk: nat, fid: nat, shared: bool)
    ensures var m' := SetSpec(m, vid, mbrmsk, untagmsk, fid, shared);
            && (mbrmsk % 256 != 0 || untagmsk % 256 != 0 ==>
                  && vid in m' && m'[vid].member == mbrmsk % 256 && m'[vid].untag == untagmsk % 256
                  && m'[vid].fid == fid && m'[vid].ucslkfid == if shared then 1 else 0)
            && (mbrmsk % 256 == 0 && untagmsk % 256 == 0 ==> vid !in m')
            && (forall v :: v != vid ==> (v in m' <==> v in m))
            && (forall v :: v != vid && v in m' ==> m'[v] == m[v])
  {
  }

  // what has been stored is not cut again when it is stored once more
  lemma SetSpecKeeps(m: map<nat, Vlan>, vid: nat, member: nat, untag: nat, fid: nat, shared: bool)
    requires vid in m && member < 256 && untag < 256 && (member != 0 || untag != 0)
    requires m[vid].member == member && m[vid].untag == untag
    ensures SetSpec(m, vid, member, untag, fid, shared) == StgSpec(m, vid, fid, shared)
  {
  }

  // the value of ucslkfid that the present mode calls for
  function Mode(shared: bool): nat {
    if shared then 1 else 0
  }

  function StgSpec(m: map<nat, Vlan>, vid: nat, stg: nat, shared: bool): map<nat, Vlan>
    requires vid in m
  {
    m[vid := m[vid].(fid := stg, ucslkfid := Mode(shared))]
  }

  /** Setting the spanning-tree group changes nothing but the fid if and only if the entry was
      last written in the present mode. */
  lemma StgOnlyFid(m: map<nat, Vlan>, vid: nat, stg: nat, shared: bool)
    requires vid in m
    ensures StgSpec(m, vid, stg, shared) == m[vid := m[vid].(fid := stg)] <==> m[vid].ucslkfid == Mode(shared)
  {
    if m[vid].ucslkfid != Mode(shared) {
      assert StgSpec(m, vid, stg, shared)[vid].ucslkfid != m[vid := m[vid].(fid := stg)][vid].ucslkfid;
    }
  }

  /** It does change more: after rtk_vlan_init and a change of mode to VLAN_SVL, setting group 0
      of VLAN 1, which is the group it has, still changes the entry. */
  lemma StgChangesMore()
    ensures var m := map[1 := Vlan(ALL_PORTS, ALL_PORTS, 0, 0)];
            && StgSpec(m, 1, 0, true) == map[1 := Vlan(ALL_PORTS, ALL_PORTS, 0, 1)]
            && StgSpec(m, 1, 0, true) != m[1 := m[1].(fid := 0)]
  {
    StgOnlyFid(map[1 := Vlan(ALL_PORTS, ALL_PORTS, 0, 0)], 1, 0, true);
  }

  /** All entries were written in the present mode. */
  predicate Uniform(m: map<nat, Vlan>, shared: bool) {
    forall v :: v in m ==> m[v].ucslkfid == Mode(shared)
  }

  /** A call that succeeds: rtk_vlan_set, rtk_vlan_destroy or rtk_vlan_stg_set.  Calls that fail
      change nothing. */
  datatype Op = OpSet(vid: nat, mbrmsk: nat, untagmsk: nat, fid: nat) | OpDestroy(vid: nat) | OpStg(vid: nat, stg: nat)

  function Done(m: map<nat, Vlan>, op: Op, shared: bool): map<nat, Vlan> {
    match op
    case OpSet(vid, mbrmsk, untagmsk, fid) => SetSpec(m, vid, mbrmsk, untagmsk, fid, shared)
    case OpDestroy(vid) => m - {vid}
    case OpStg(vid, stg) => if vid in m then StgSpec(m, vid, stg, shared) else m
  }

  function AllDone(m: map<nat, Vlan>, ops: seq<Op>, shared: bool): map<nat, Vlan> {
    if ops == [] then m else Done(AllDone(m, ops[..|ops| - 1], shared), ops[|ops| - 1], shared)
  }

  lemma {:induction false} UniformKept(m: map<nat, Vlan>, ops: seq<Op>, shared: bool)
    requires Uniform(m, shared)
    ensures Uniform(AllDone(m, ops, shared), shared)
  {
    if ops != [] {
      UniformKept(m, ops[..|ops| - 1], shared);
    }
  }

  /** After rtk_vlan_init and any sequence of calls that set, destroy and regroup VLANs, as long
      as the mode is not changed, a change of group changes nothing but the fid. */
  lemma OnlyFidInEveryRun(ops: seq<Op>, vid: nat, stg: nat)
    ensures var m := AllDone(map[1 := Vlan(ALL_PORTS, ALL_PORTS, 0, 0)], ops, false);
            vid in m ==> Done(m, OpStg(vid, stg), false) == m[vid := m[vid].(fid := stg)]
  {
    UniformKept(map[1 := Vlan(ALL_PORTS, ALL_PORTS, 0, 0)], ops, false);
    var m := AllDone(map[1 := Vlan(ALL_PORTS, ALL_PORTS, 0, 0)], ops, false);
    hide AllDone;
    if vid in m {
      StgOnlyFid(m, vid, stg, false);
    }
  }

  lemma ReadFits(table: seq<nat>, cam: seq<(nat, nat)>, i: nat)
    requires |table| == TABLE && |cam| == CAM && i < TABLE + CAM
    ensures var p := Slots(table, cam)[i]; p.member < 256 && p.untag < 256
  {
  }

  lemma OnlyIds(s: seq<Param>)
    ensures forall v :: v in AsMap(s) ==> v <= VID_MAX
  {
  }

  lemma AllInvalid(s: seq<Param>)
    requires forall i :: 0 <= i < |s| ==> !s[i].valid
    ensures AsMap(s) == map[] && Unique(s) && Useful(s) && Bucketed(s)
  {
  }

  lemma ClearSlot(s: seq<Param>, i: nat, p: Param)
    requires Unique(s) && Useful(s) && Bucketed(s) && i < |s| && !p.valid
    ensures Unique(s[i := p]) && Useful(s[i := p]) && Bucketed(s[i := p])
    ensures AsMap(s[i := p]) == AsMap(s) - (if s[i].valid then {s[i].vid} else {})
  {
    EraseSlot(s, i, p);
    hide AsMap;
  }

  /** What rtk_vlan_set does to the map. */
  function SetSpec(m: map<nat, Vlan>, vid: nat, mbrmsk: nat, untagmsk: nat, fid: nat, shared: bool): map<nat, Vlan> {
    if mbrmsk % 256 == 0 && untagmsk % 256 == 0 then m - {vid}
    else m[vid := Vlan(mbrmsk % 256, untagmsk % 256, fid, Mode(shared))]
  }

  // what a search hit says about the map
  lemma SlotFits(s: seq<Param>, vid: nat, hit: nat, hitIndex: nat)
    requires Unique(s) && |s| == TABLE + CAM && vid <= VID_MAX && hit <= 2
    requires hit == 1 ==> hitIndex < TABLE && Holds(s, hitIndex, vid)
    requires hit == 2 ==> hitIndex < CAM && Holds(s, TABLE + hitIndex, vid)
    requires hit == 0 ==> forall i :: 0 <= i < TABLE + CAM ==> !Holds(s, i, vid)
    ensures hit == 1 || hit == 2 ==> vid in AsMap(s)
    ensures hit == 0 ==> vid !in AsMap(s)
  {
    if hit == 1 {
      PresentInMap(s, hitIndex);
    } else if hit == 2 {
      PresentInMap(s, TABLE + hitIndex);
    } else {
      AbsentFromMap(s, vid);
    }
  }

  /** Writing an entry into the slot of its id, or into a free slot when the id has none. */
  lemma WriteSlot(s: seq<Param>, i: nat, p: Param)
    requires Unique(s) && Useful(s) && Bucketed(s) && i < |s| && Fits(p)
    requires i < TABLE ==> p.vid % 32 == i / 4
    requires p.valid <==> p.member != 0 || p.untag != 0
    requires Holds(s, i, p.vid) || (!s[i].valid && forall j :: 0 <= j < |s| ==> !Holds(s, j, p.vid))
    ensures Unique(s[i := p]) && Useful(s[i := p]) && Bucketed(s[i := p])
    ensures AsMap(s[i := p]) == if p.valid then AsMap(s)[p.vid := VlanOf(p)] else AsMap(s) - {p.vid}
  {
    if p.valid {
      forall j | 0 <= j < |s| && j != i && s[j].valid
        ensures s[j].vid != p.vid
      {
        assert !Holds(s, i, p.vid) ==> !Holds(s, j, p.vid);
      }
      StoreSlot(s, i, p);
    } else {
      EraseSlot(s, i, p);
      if !s[i].valid {
        AbsentFromMap(s, p.vid);
      }
    }
    hide AsMap;
  }
}
