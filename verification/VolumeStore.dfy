/** The volume group volumed manages: what each LVM command does to it. */
module VolumeStore {
  import opened Status
  import opened MachineInts
  import opened Numerals

  /** Whether the group's `capacity_bytes` is the room still unallocated or the whole size. */
  datatype Figure = Remaining | Total

  /** The host: the group, volumed's configuration, and the foreign code both rely on. */
  datatype Env = Env(
    size: nat,               // bytes in the volume group
    spare: nat,              // `spare_bytes`, zero when absent
    figure: Figure,          // what `vg.capacity_bytes` means
    round: nat -> nat,       // the size LVM gives a volume asked for with this many bytes
    accepts: nat -> bool,    // whether a byte count is a legal LVM capacity
    digest: string -> u64)   // the hash of a requested name

  /** LVM only ever rounds a size up, and sizes fit a `usize`. */
  ghost predicate ValidEnv(e: Env) {
    e.size < TWO_64 && forall c: nat :: e.round(c) >= c
  }

  /**
   * One logical volume. `formats` lists the requests whose `mkfs` has run on it, oldest first, so its
   * length is the format generation; `blank` says nothing was written since the last of them.
   */
  datatype Volume = Volume(
    name: string,
    capacity: nat,
    maker: Option<nat>,
    live: bool,
    formats: seq<nat>,
    blank: bool)

  /**
   * Every volume the group has ever held, in creation order. A volume's UUID is its position: fresh at
   * creation and never reused, because a removed volume stays behind with `live` false.
   */
  type Store = seq<Volume>

  predicate Live(lvs: Store, u: int) {
    0 <= u < |lvs| && lvs[u].live
  }

  /** The name a requested volume is stored under (`hash_resource`). */
  function SafeName(e: Env, name: string): string {
    HexName(e.digest(name))
  }

  /** `LogicalVolume::from_id`: the live volume of that name. */
  function FindName(lvs: Store, name: string): Option<nat> {
    if lvs == [] then None
    else
      var last := |lvs| - 1;
      if lvs[last].live && lvs[last].name == name then Some(last) else FindName(lvs[..last], name)
  }

  function Allocated(lvs: Store): nat {
    if lvs == [] then 0
    else
      var last := |lvs| - 1;
      Allocated(lvs[..last]) + if lvs[last].live then lvs[last].capacity else 0
  }

  /** The group's `capacity_bytes`, read afresh at the start of each request (`vg_injector`). */
  function VgCapacityBytes(e: Env, lvs: Store): nat {
    match e.figure
    case Remaining => SubOrZero(e.size, Allocated(lvs))
    case Total => e.size
  }

  /** `get_free_bytes`. */
  function FreeBytes(e: Env, lvs: Store): nat {
    SubOrZero(VgCapacityBytes(e, lvs), e.spare)
  }

  /** The bytes volumed may hand out at most. */
  function Usable(e: Env): nat {
    SubOrZero(e.size, e.spare)
  }

  /** `create_logical_volume`: fails on an illegal capacity, a name in use, or lack of room. */
  function AddLv(e: Env, lvs: Store, name: string, capacity: nat, maker: nat): Result<Store> {
    if !e.accepts(capacity) then Err(InvalidArgument)
    else if FindName(lvs, name).Some? then Err(InvalidArgument)
    else if Allocated(lvs) + e.round(capacity) > e.size then Err(InvalidArgument)
    else Ok(lvs + [Volume(name, e.round(capacity), Some(maker), true, [], true)])
  }

  /** `delete_logical_volume`. */
  function RemoveLv(lvs: Store, name: string): Result<Store> {
    match FindName(lvs, name)
    case Some(u) =>
      FindNameSound(lvs, name);
      Ok(lvs[u := lvs[u].(live := false)])
    case None => Err(InvalidArgument)
  }

  /** `format_logical_volume`: `mkfs.xfs -f` on whichever volume bears the name. */
  function FormatLv(lvs: Store, name: string, request: nat): Result<Store> {
    match FindName(lvs, name)
    case Some(u) =>
      FindNameSound(lvs, name);
      Ok(lvs[u := lvs[u].(formats := lvs[u].formats + [request], blank := true)])
    case None => Err(NotFound)
  }

  /** A workload writes to a volume. */
  function WriteTo(lvs: Store, u: nat): Store {
    if Live(lvs, u) then lvs[u := lvs[u].(blank := false)] else lvs
  }

  /** What volumed answers about a volume (`From<LogicalVolume> for LV`). */
  datatype LvInfo = LvInfo(uuid: nat, name: string, capacityBytes: u64)

  function Info(lvs: Store, u: nat): LvInfo
    requires u < |lvs|
  {
    LvInfo(u, lvs[u].name, ToWire(lvs[u].capacity))
  }

  /** `get_lv_list`: the live volumes in list order. */
  function ListFrom(lvs: Store, from: nat): seq<LvInfo>
    requires from <= |lvs|
    decreases |lvs| - from
  {
    if from == |lvs| then []
    else (if lvs[from].live then [Info(lvs, from)] else []) + ListFrom(lvs, from + 1)
  }

  /** No two live volumes share a name, and they fit in the group. */
  ghost predicate WellFormed(e: Env, lvs: Store) {
    && Allocated(lvs) <= e.size
    && forall u, w :: Live(lvs, u) && Live(lvs, w) && lvs[u].name == lvs[w].name ==> u == w
  }

  lemma {:induction false} FindNameSound(lvs: Store, name: string)
    ensures match FindName(lvs, name)
      case Some(u) => Live(lvs, u) && lvs[u].name == name
      case None => forall u :: Live(lvs, u) ==> lvs[u].name != name
  {
    if lvs != [] {
      var last := |lvs| - 1;
      FindNameSound(lvs[..last], name);
      if !(lvs[last].live && lvs[last].name == name) && FindName(lvs, name).None? {
        forall u | Live(lvs, u) ensures lvs[u].name != name {
          if u < last {
            assert Live(lvs[..last], u);
          }
        }
      }
    }
  }

  /** With unique names, a lookup by name answers exactly the live volume of that name. */
  lemma FindNameExact(e: Env, lvs: Store, name: string, u: nat)
    requires WellFormed(e, lvs)
    ensures FindName(lvs, name) == Some(u) <==> Live(lvs, u) && lvs[u].name == name
  {
    FindNameSound(lvs, name);
  }

  lemma {:induction false} AllocatedUpdate(lvs: Store, u: nat, v: Volume)
    requires u < |lvs|
    ensures Allocated(lvs[u := v]) + (if lvs[u].live then lvs[u].capacity else 0)
         == Allocated(lvs) + (if v.live then v.capacity else 0)
  {
    var last := |lvs| - 1;
    if u == last {
      assert lvs[u := v][..last] == lvs[..last];
    } else {
      AllocatedUpdate(lvs[..last], u, v);
      assert lvs[u := v][..last] == lvs[..last][u := v];
    }
  }

  lemma AllocatedAppend(lvs: Store, v: Volume)
    ensures Allocated(lvs + [v]) == Allocated(lvs) + (if v.live then v.capacity else 0)
  {
    assert (lvs + [v])[..|lvs|] == lvs;
  }

  lemma {:induction false} AllocatedBounds(lvs: Store, u: nat)
    requires Live(lvs, u)
    ensures lvs[u].capacity <= Allocated(lvs)
  {
    if u < |lvs| - 1 {
      AllocatedBounds(lvs[..|lvs| - 1], u);
    }
  }

  /** Volume `u` keeps its name, size and origin; it can be removed but never returns; formats only accumulate. */
  ghost predicate VolumeGrows(v: Volume, w: Volume) {
    && v.name == w.name && v.capacity == w.capacity && v.maker == w.maker
    && (w.live ==> v.live)
    && v.formats <= w.formats
  }

  ghost predicate StoreGrows(lvs: Store, later: Store) {
    && |lvs| <= |later|
    && forall u :: 0 <= u < |lvs| ==> VolumeGrows(lvs[u], later[u])
  }

  /** What a successful `add_lv` does: one fresh volume of the rounded size, everything else untouched. */
  lemma AddLvEffect(e: Env, lvs: Store, name: string, capacity: nat, maker: nat)
    requires WellFormed(e, lvs)
    ensures AddLv(e, lvs, name, capacity, maker).Ok? <==>
      && e.accepts(capacity)
      && (forall u :: Live(lvs, u) ==> lvs[u].name != name)
      && Allocated(lvs) + e.round(capacity) <= e.size
    ensures AddLv(e, lvs, name, capacity, maker).Err? ==> AddLv(e, lvs, name, capacity, maker).code == InvalidArgument
    ensures AddLv(e, lvs, name, capacity, maker).Ok? ==>
      var later := AddLv(e, lvs, name, capacity, maker).value;
      && StoreGrows(lvs, later) && WellFormed(e, later)
      && |later| == |lvs| + 1 && later[..|lvs|] == lvs
      && Live(later, |lvs|) && later[|lvs|].name == name && later[|lvs|].capacity == e.round(capacity)
      && FindName(later, name) == Some(|lvs|)
      && Allocated(later) == Allocated(lvs) + e.round(capacity)
  {
    FindNameSound(lvs, name);
    hide FindName, Allocated, StoreGrows;
    if AddLv(e, lvs, name, capacity, maker).Ok? {
      Appended(e, lvs, Volume(name, e.round(capacity), Some(maker), true, [], true));
    }
  }

  /** One more volume, of a name no live volume has and a size that fits. */
  lemma Appended(e: Env, lvs: Store, v: Volume)
    requires WellFormed(e, lvs) && v.live && Allocated(lvs) + v.capacity <= e.size
    requires forall u :: Live(lvs, u) ==> lvs[u].name != v.name
    ensures var later := lvs + [v];
      && StoreGrows(lvs, later) && WellFormed(e, later) && later[..|lvs|] == lvs
      && FindName(later, v.name) == Some(|lvs|) && Allocated(later) == Allocated(lvs) + v.capacity
  {
    var later := lvs + [v];
    AllocatedAppend(lvs, v);
    assert FindName(later, v.name) == Some(|lvs|);
    hide FindName, Allocated, StoreGrows;
    assert later[..|lvs|] == lvs;
    forall u, w | Live(later, u) && Live(later, w) && later[u].name == later[w].name ensures u == w {
      assert (u < |lvs| ==> Live(lvs, u)) && (w < |lvs| ==> Live(lvs, w));
    }
    AppendGrows(lvs, v);
  }

  lemma AppendGrows(lvs: Store, v: Volume)
    ensures StoreGrows(lvs, lvs + [v])
  {
    forall u | 0 <= u < |lvs| ensures (lvs + [v])[u] == lvs[u] {
    }
  }

  /** What a successful `remove_lv` does: exactly the volume of that name goes, and its bytes come back. */
  lemma RemoveLvEffect(e: Env, lvs: Store, name: string)
    requires WellFormed(e, lvs)
    ensures RemoveLv(lvs, name).Ok? <==> exists u :: Live(lvs, u) && lvs[u].name == name
    ensures RemoveLv(lvs, name).Ok? ==>
      var later := RemoveLv(lvs, name).value;
      && StoreGrows(lvs, later) && WellFormed(e, later) && |later| == |lvs|
      && (forall u :: Live(later, u) <==> Live(lvs, u) && lvs[u].name != name)
      && (forall u :: 0 <= u < |lvs| ==> later[u] == lvs[u].(live := later[u].live))
      && (forall u :: Live(lvs, u) && lvs[u].name == name ==> Allocated(later) + lvs[u].capacity == Allocated(lvs))
      && Allocated(later) <= Allocated(lvs)
  {
    FindNameSound(lvs, name);
    if FindName(lvs, name).Some? {
      var u := FindName(lvs, name).value;
      AllocatedUpdate(lvs, u, lvs[u].(live := false));
      var later := RemoveLv(lvs, name).value;
      forall w ensures Live(later, w) <==> Live(lvs, w) && lvs[w].name != name {
        if Live(lvs, w) && lvs[w].name == name {
          assert w == u;
        }
      }
    }
  }

  /** What a successful format does: exactly the live volume of that name is blanked, a generation later. */
  lemma FormatLvEffect(e: Env, lvs: Store, name: string, request: nat)
    requires WellFormed(e, lvs)
    ensures FormatLv(lvs, name, request).Ok? <==> exists u :: Live(lvs, u) && lvs[u].name == name
    ensures FormatLv(lvs, name, request).Err? ==> FormatLv(lvs, name, request).code == NotFound
    ensures FormatLv(lvs, name, request).Ok? ==>
      var later := FormatLv(lvs, name, request).value;
      && StoreGrows(lvs, later) && WellFormed(e, later) && |later| == |lvs|
      && Allocated(later) == Allocated(lvs)
      && (forall u :: Live(later, u) <==> Live(lvs, u))
      && (forall u :: 0 <= u < |lvs| ==>
            if lvs[u].live && lvs[u].name == name
            then later[u].formats == lvs[u].formats + [request] && later[u].blank
            else later[u] == lvs[u])
  {
    FindNameSound(lvs, name);
    if FindName(lvs, name).Some? {
      var u := FindName(lvs, name).value;
      AllocatedUpdate(lvs, u, lvs[u].(formats := lvs[u].formats + [request], blank := true));
      forall w | 0 <= w < |lvs| && lvs[w].live && lvs[w].name == name ensures w == u {
        assert Live(lvs, w) && Live(lvs, u);
      }
    }
  }

  /** A write leaves a live volume no longer blank, and changes nothing else. */
  lemma WriteToEffect(e: Env, lvs: Store, u: nat)
    requires WellFormed(e, lvs)
    ensures StoreGrows(lvs, WriteTo(lvs, u)) && WellFormed(e, WriteTo(lvs, u))
    ensures |WriteTo(lvs, u)| == |lvs| && Allocated(WriteTo(lvs, u)) == Allocated(lvs)
    ensures forall w :: 0 <= w < |lvs| ==>
      WriteTo(lvs, u)[w] == lvs[w].(blank := lvs[w].blank && !(w == u && lvs[w].live))
  {
    if Live(lvs, u) {
      AllocatedUpdate(lvs, u, lvs[u].(blank := false));
      assert forall w :: Live(WriteTo(lvs, u), w) <==> Live(lvs, w);
    }
  }

  /** Every listed volume is a live one at or after `from`, reported as it stands. */
  lemma {:induction false} ListSound(lvs: Store, from: nat, i: nat)
    requires from <= |lvs| && i < |ListFrom(lvs, from)|
    ensures var v := ListFrom(lvs, from)[i]; from <= v.uuid && Live(lvs, v.uuid) && v == Info(lvs, v.uuid)
    decreases |lvs| - from
  {
    if !lvs[from].live {
      ListSound(lvs, from + 1, i);
    } else if i > 0 {
      ListSound(lvs, from + 1, i - 1);
    }
  }

  /** Where an entry of the rest of the list stands in the list. */
  lemma ListStep(lvs: Store, from: nat, k: nat)
    requires from < |lvs| && k < |ListFrom(lvs, from + 1)|
    ensures var i := if lvs[from].live then k + 1 else k;
      i < |ListFrom(lvs, from)| && ListFrom(lvs, from)[i] == ListFrom(lvs, from + 1)[k]
  {
    hide Info;
  }

  lemma ListHead(lvs: Store, from: nat)
    requires Live(lvs, from)
    ensures |ListFrom(lvs, from)| > 0 && ListFrom(lvs, from)[0] == Info(lvs, from)
  {
    hide Info;
  }

  /** Every live volume is listed. */
  lemma {:induction false} ListComplete(lvs: Store, from: nat, u: nat) returns (i: nat)
    requires from <= u && Live(lvs, u)
    ensures i < |ListFrom(lvs, from)| && ListFrom(lvs, from)[i] == Info(lvs, u)
    decreases |lvs| - from
  {
    hide ListFrom, Info;
    if u == from {
      i := 0;
      ListHead(lvs, u);
    } else {
      var k := ListComplete(lvs, from + 1, u);
      ListStep(lvs, from, k);
      i := if lvs[from].live then k + 1 else k;
    }
  }

  /** The list is in creation order, hence names no volume twice. */
  lemma {:induction false} ListOrdered(lvs: Store, from: nat, i: nat, j: nat)
    requires from <= |lvs| && i < j < |ListFrom(lvs, from)|
    ensures ListFrom(lvs, from)[i].uuid < ListFrom(lvs, from)[j].uuid
    decreases |lvs| - from
  {
    if !lvs[from].live {
      ListOrdered(lvs, from + 1, i, j);
    } else if i > 0 {
      ListOrdered(lvs, from + 1, i - 1, j - 1);
    } else {
      ListSound(lvs, from + 1, j - 1);
    }
  }
}
