/** The in-memory block store: volumes, snapshots, and one growable byte buffer per written volume.
    It is checked against a store that keeps a map from offsets to the bytes written there. */
module NativeStore {
  import opened Numbers
  import opened Options

  type U64 = x: nat | x <= U64_MAX
  type Byte = x: nat | x < 256

  datatype Volume = Volume(name: string, size: U64, extents: nat)

  datatype Frozen = Frozen(size: U64, extents: nat)

  /** `data[id]` holds the volume's bytes up to the furthest one written. */
  datatype Store = Store(volumes: map<string, Volume>, snapshots: map<string, Frozen>, data: map<string, seq<Byte>>)

  datatype Call =
    | Create(id: string, name: string, size: U64)
    | Delete(id: string)
    | Resize(id: string, size: U64)
    | TakeSnapshot(id: string, volume: string)
    | Clone(id: string, snapshot: string, name: string, request: Option<U64>)
    | DeleteSnapshot(id: string)
    // the first and the last critical section of a clone; the middle one is a `Create`
    | FindSnapshot(id: string)
    | SetExtents(id: string, extents: nat)
    | Write(id: string, offset: U64, bytes: seq<Byte>)
    | Read(id: string, offset: U64, len: U64)

  datatype Error = NotFound | NameTaken | CannotShrink | CloneTooSmall | OutOfRange

  /** `Crashed`: slice bounds that do not fit, where the Rust code panics. */
  datatype Reply =
    | Done
    | Named(id: string)
    | Found(frozen: Frozen)
    | Bytes(bytes: seq<Byte>)
    | Refused(error: Error)
    | Crashed

  datatype Outcome = Outcome(store: Store, reply: Reply)

  function SaturatingAdd(a: nat, b: nat): (r: U64) {
    if a + b <= U64_MAX then a + b else U64_MAX
  }

  function Min(a: nat, b: nat): nat {
    if a < b then a else b
  }

  function Zeros(n: nat): (r: seq<Byte>)
    ensures |r| == n
  {
    seq(n, i => 0)
  }

  predicate NameInUse(s: Store, name: string) {
    exists id | id in s.volumes :: s.volumes[id].name == name
  }

  function DoCreate(s: Store, id: string, name: string, size: U64): (r: Outcome) {
    if id in s.volumes then Outcome(s, Named(id))
    else if NameInUse(s, name) then Outcome(s, Refused(NameTaken))
    else Outcome(s.(volumes := s.volumes[id := Volume(name, size, 0)]), Named(id))
  }

  function DoDelete(s: Store, id: string): (r: Outcome) {
    var t := s.(data := s.data - {id}, volumes := s.volumes - {id});
    Outcome(t, if id in s.volumes then Done else Refused(NotFound))
  }

  function DoResize(s: Store, id: string, size: U64): (r: Outcome) {
    if id !in s.volumes then Outcome(s, Refused(NotFound))
    else if size < s.volumes[id].size then Outcome(s, Refused(CannotShrink))
    else Outcome(s.(volumes := s.volumes[id := s.volumes[id].(size := size)]), Done)
  }

  function DoClone(s: Store, id: string, snapshot: string, name: string, request: Option<U64>): (r: Outcome) {
    if snapshot !in s.snapshots then Outcome(s, Refused(NotFound))
    else
      var from := s.snapshots[snapshot];
      var size := if request.Some? then request.value else from.size;
      if size < from.size then Outcome(s, Refused(CloneTooSmall))
      else
        var made := DoCreate(s, id, name, size);
        if !made.reply.Named? then made
        else
          var t := made.store;
          Outcome(t.(volumes := t.volumes[id := t.volumes[id].(extents := from.extents)]), made.reply)
  }

  /** The buffer after writing `bytes` at `offset`; a gap left before them is filled with zeros. */
  function Written(d: seq<Byte>, offset: nat, bytes: seq<Byte>): (r: seq<Byte>) {
    var end := offset + |bytes|;
    var grown := if |d| < end then d + Zeros(end - |d|) else d;
    grown[..offset] + bytes + grown[end..]
  }

  function DoWrite(s: Store, id: string, offset: U64, bytes: seq<Byte>): (r: Outcome) {
    if id !in s.volumes then Outcome(s, Refused(NotFound))
    else
      var end := SaturatingAdd(offset, |bytes|);
      if end > s.volumes[id].size then Outcome(s, Refused(OutOfRange))
      else if end != offset + |bytes| then Outcome(s, Crashed)
      else
        var d := if id in s.data then s.data[id] else [];
        Outcome(s.(data := s.data[id := Written(d, offset, bytes)]), Done)
  }

  /** The bounds check saturates; the slice bound below it is a plain sum and wraps. */
  function DoRead(s: Store, id: string, offset: U64, len: U64): (r: Outcome) {
    if id !in s.volumes then Outcome(s, Refused(NotFound))
    else if SaturatingAdd(offset, len) > s.volumes[id].size then Outcome(s, Refused(OutOfRange))
    else if id !in s.data then Outcome(s, Bytes(Zeros(len)))
    else
      var d := s.data[id];
      var start := Min(offset, |d|);
      var end := Min((offset + len) % (U64_MAX + 1), |d|);
      if end < start || len < end - start then Outcome(s, Crashed)
      else Outcome(s, Bytes(d[start..end] + Zeros(len - (end - start))))
  }

  function Do(s: Store, call: Call): (r: Outcome) {
    match call
    case Create(id, name, size) => DoCreate(s, id, name, size)
    case Delete(id) => DoDelete(s, id)
    case Resize(id, size) => DoResize(s, id, size)
    case TakeSnapshot(id, volume) =>
      if volume !in s.volumes then Outcome(s, Refused(NotFound))
      else
        var v := s.volumes[volume];
        Outcome(s.(snapshots := s.snapshots[id := Frozen(v.size, v.extents)]), Named(id))
    case Clone(id, snapshot, name, request) => DoClone(s, id, snapshot, name, request)
    case DeleteSnapshot(id) =>
      if id in s.snapshots then Outcome(s.(snapshots := s.snapshots - {id}), Done) else Outcome(s, Refused(NotFound))
    case FindSnapshot(id) => Outcome(s, if id in s.snapshots then Found(s.snapshots[id]) else Refused(NotFound))
    case SetExtents(id, extents) => Outcome(DoSetExtents(s, id, extents), Done)
    case Write(id, offset, bytes) => DoWrite(s, id, offset, bytes)
    case Read(id, offset, len) => DoRead(s, id, offset, len)
  }

  /** Nothing happens when the volume is gone. */
  function DoSetExtents(s: Store, id: string, extents: nat): (t: Store) {
    if id in s.volumes then s.(volumes := s.volumes[id := s.volumes[id].(extents := extents)]) else s
  }

  /** The mutex-guarded state, changed in place by each call. */
  class FakeApi {
    var volumes: map<string, Volume>
    var snapshots: map<string, Frozen>
    var data: map<string, seq<Byte>>

    ghost function Value(): Store
      reads this
    {
      Store(volumes, snapshots, data)
    }

    constructor ()
      ensures Value() == EMPTY
    {
      volumes, snapshots, data := map[], map[], map[];
    }

    method CreateVolume(id: string, name: string, size: U64) returns (r: Reply)
      modifies this
      ensures Outcome(Value(), r) == DoCreate(old(Value()), id, name, size)
    {
      if id in volumes {
        return Named(id);
      }
      if exists v | v in volumes :: volumes[v].name == name {
        return Refused(NameTaken);
      }
      volumes := volumes[id := Volume(name, size, 0)];
      r := Named(id);
    }

    method DeleteVolume(id: string) returns (r: Reply)
      modifies this
      ensures Outcome(Value(), r) == DoDelete(old(Value()), id)
    {
      data := data - {id};
      r := if id in volumes then Done else Refused(NotFound);
      volumes := volumes - {id};
    }

    method ResizeVolume(id: string, size: U64) returns (r: Reply)
      modifies this
      ensures Outcome(Value(), r) == DoResize(old(Value()), id, size)
    {
      if id !in volumes {
        return Refused(NotFound);
      }
      if size < volumes[id].size {
        return Refused(CannotShrink);
      }
      volumes := volumes[id := volumes[id].(size := size)];
      r := Done;
    }

    method LookUpSnapshot(id: string) returns (r: Reply)
      ensures Outcome(Value(), r) == Do(Value(), FindSnapshot(id))
    {
      r := if id in snapshots then Found(snapshots[id]) else Refused(NotFound);
    }

    method UpdateExtents(id: string, extents: nat)
      modifies this
      ensures Outcome(Value(), Done) == Do(old(Value()), SetExtents(id, extents))
    {
      if id in volumes {
        volumes := volumes[id := volumes[id].(extents := extents)];
      }
    }

    /** Lookup, creation and the extents update each take the lock; here nothing comes in between. With
        other calls in between, a clone is those three calls of a longer history. */
    method CloneSnapshot(id: string, snapshot: string, name: string, request: Option<U64>) returns (r: Reply)
      modifies this
      ensures Outcome(Value(), r) == DoClone(old(Value()), id, snapshot, name, request)
    {
      var found := LookUpSnapshot(snapshot);
      if !found.Found? {
        return found;
      }
      var from := found.frozen;
      var size := if request.Some? then request.value else from.size;
      if size < from.size {
        return Refused(CloneTooSmall);
      }
      r := CreateVolume(id, name, size);
      if r.Named? {
        UpdateExtents(id, from.extents);
      }
    }

    method CreateSnapshot(id: string, volume: string) returns (r: Reply)
      modifies this
      ensures Outcome(Value(), r) == Do(old(Value()), TakeSnapshot(id, volume))
    {
      if volume !in volumes {
        return Refused(NotFound);
      }
      snapshots := snapshots[id := Frozen(volumes[volume].size, volumes[volume].extents)];
      r := Named(id);
    }

    method RemoveSnapshot(id: string) returns (r: Reply)
      modifies this
      ensures Outcome(Value(), r) == Do(old(Value()), DeleteSnapshot(id))
    {
      r := if id in snapshots then Done else Refused(NotFound);
      snapshots := snapshots - {id};
    }

    method WriteBytes(id: string, offset: U64, bytes: seq<Byte>) returns (r: Reply)
      modifies this
      ensures Outcome(Value(), r) == DoWrite(old(Value()), id, offset, bytes)
    {
      if id !in volumes {
        return Refused(NotFound);
      }
      var end := SaturatingAdd(offset, |bytes|);
      if end > volumes[id].size {
        return Refused(OutOfRange);
      }
      if end - offset != |bytes| {
        return Crashed;
      }
      var d := if id in data then data[id] else [];
      if |d| < end {
        d := d + Zeros(end - |d|);
      }
      d := d[..offset] + bytes + d[end..];
      data := data[id := d];
      r := Done;
    }

    method ReadBytes(id: string, offset: U64, len: U64) returns (r: Reply)
      ensures Outcome(Value(), r) == DoRead(Value(), id, offset, len)
    {
      if id !in volumes {
        return Refused(NotFound);
      }
      if SaturatingAdd(offset, len) > volumes[id].size {
        return Refused(OutOfRange);
      }
      var out := Zeros(len);
      if id in data {
        var d := data[id];
        var start := Min(offset, |d|);
        var end := Min((offset + len) % (U64_MAX + 1), |d|);
        if end < start || len < end - start {
          return Crashed;
        }
        assert out[end - start..] == Zeros(len - (end - start));
        out := d[start..end] + out[end - start..];
      }
      r := Bytes(out);
    }
  }

  const EMPTY := Store(map[], map[], map[])

  // ---- The byte-map store it must agree with ----

  /** A volume as a total function from offsets to bytes: zero everywhere when it is created, and
      changed by a write at exactly the offsets written. */
  datatype Sheet = Sheet(name: string, size: U64, extents: nat, byteAt: nat -> Byte)

  datatype Shelf = Shelf(sheets: map<string, Sheet>, snapshots: map<string, Frozen>)

  datatype Answer = Answer(shelf: Shelf, reply: Reply)

  function Inscribe(byteAt: nat -> Byte, offset: nat, bytes: seq<Byte>): (r: nat -> Byte) {
    (k: nat) => if offset <= k < offset + |bytes| then bytes[k - offset] else byteAt(k)
  }

  function Excerpt(byteAt: nat -> Byte, offset: nat, len: nat): (r: seq<Byte>)
    ensures |r| == len
    ensures forall i | 0 <= i < len :: r[i] == byteAt(offset + i)
  {
    if len == 0 then [] else Excerpt(byteAt, offset, len - 1) + [byteAt(offset + len - 1)]
  }

  predicate SheetNamed(shelf: Shelf, name: string) {
    exists id | id in shelf.sheets :: shelf.sheets[id].name == name
  }

  function AskCreate(f: Shelf, id: string, name: string, size: U64, extents: nat): (r: Answer) {
    if id in f.sheets then Answer(f, Named(id))
    else if SheetNamed(f, name) then Answer(f, Refused(NameTaken))
    else Answer(f.(sheets := f.sheets[id := Sheet(name, size, extents, (k: nat) => 0)]), Named(id))
  }

  function Ask(f: Shelf, call: Call): (r: Answer) {
    match call
    case Create(id, name, size) => AskCreate(f, id, name, size, 0)
    case Delete(id) => Answer(f.(sheets := f.sheets - {id}), if id in f.sheets then Done else Refused(NotFound))
    case Resize(id, size) =>
      if id !in f.sheets then Answer(f, Refused(NotFound))
      else if size < f.sheets[id].size then Answer(f, Refused(CannotShrink))
      else Answer(f.(sheets := f.sheets[id := f.sheets[id].(size := size)]), Done)
    case TakeSnapshot(id, volume) =>
      if volume !in f.sheets then Answer(f, Refused(NotFound))
      else
        var v := f.sheets[volume];
        Answer(f.(snapshots := f.snapshots[id := Frozen(v.size, v.extents)]), Named(id))
    case Clone(id, snapshot, name, request) =>
      if snapshot !in f.snapshots then Answer(f, Refused(NotFound))
      else
        var from := f.snapshots[snapshot];
        var size := if request.Some? then request.value else from.size;
        if size < from.size then Answer(f, Refused(CloneTooSmall))
        else if id in f.sheets then
          Answer(f.(sheets := f.sheets[id := f.sheets[id].(extents := from.extents)]), Named(id))
        else AskCreate(f, id, name, size, from.extents)
    case DeleteSnapshot(id) =>
      if id in f.snapshots then Answer(f.(snapshots := f.snapshots - {id}), Done) else Answer(f, Refused(NotFound))
    case FindSnapshot(id) => Answer(f, if id in f.snapshots then Found(f.snapshots[id]) else Refused(NotFound))
    case SetExtents(id, extents) =>
      Answer(if id in f.sheets then f.(sheets := f.sheets[id := f.sheets[id].(extents := extents)]) else f, Done)
    case Write(id, offset, bytes) =>
      if id !in f.sheets then Answer(f, Refused(NotFound))
      else if offset + |bytes| > f.sheets[id].size then Answer(f, Refused(OutOfRange))
      else
        var sheet := f.sheets[id];
        Answer(f.(sheets := f.sheets[id := sheet.(byteAt := Inscribe(sheet.byteAt, offset, bytes))]), Done)
    case Read(id, offset, len) =>
      if id !in f.sheets then Answer(f, Refused(NotFound))
      else if offset + len > f.sheets[id].size then Answer(f, Refused(OutOfRange))
      else Answer(f, Bytes(Excerpt(f.sheets[id].byteAt, offset, len)))
  }

  // ---- What every call keeps ----

  /** `positive` admits sizes from 1 to `i64::MAX`. */
  predicate Admitted(call: Call) {
    match call
    case Create(_, _, size) => size <= I64_MAX
    case Resize(_, size) => size <= I64_MAX
    case Clone(_, _, _, request) => request.Some? ==> request.value <= I64_MAX
    case _ => true
  }

  ghost predicate NamesUnique(s: Store) {
    forall a, b | a in s.volumes && b in s.volumes && s.volumes[a].name == s.volumes[b].name :: a == b
  }

  ghost predicate Inv(s: Store) {
    && NamesUnique(s)
    && (forall id | id in s.volumes :: s.volumes[id].size <= I64_MAX)
    && (forall id | id in s.snapshots :: s.snapshots[id].size <= I64_MAX)
    && (forall id | id in s.data :: id in s.volumes && |s.data[id]| <= s.volumes[id].size)
  }

  /** The byte the buffer stands for at `k`: past its end the volume reads as zeros. */
  function ByteAt(s: Store, id: string, k: nat): (b: Byte) {
    if id in s.data && k < |s.data[id]| then s.data[id][k] else 0
  }

  ghost predicate Matches(s: Store, f: Shelf, id: string)
    requires id in s.volumes && id in f.sheets
  {
    var v, sheet := s.volumes[id], f.sheets[id];
    && v == Volume(sheet.name, sheet.size, sheet.extents)
    && forall k: nat :: ByteAt(s, id, k) == sheet.byteAt(k)
  }

  ghost predicate Agrees(s: Store, f: Shelf) {
    && s.snapshots == f.snapshots
    && s.volumes.Keys == f.sheets.Keys
    && forall id | id in s.volumes :: Matches(s, f, id)
  }

  lemma NameIsFree(s: Store, name: string, x: string)
    requires !NameInUse(s, name)
    ensures x in s.volumes ==> s.volumes[x].name != name
  {
  }

  lemma CreateKeepsInv(s: Store, id: string, name: string, size: U64)
    requires Inv(s) && size <= I64_MAX
    ensures Inv(DoCreate(s, id, name, size).store)
  {
    var t := DoCreate(s, id, name, size).store;
    forall a, b | a in t.volumes && b in t.volumes && t.volumes[a].name == t.volumes[b].name ensures a == b {
      if t != s && a != b {
        var x := if a == id then b else a;
        NameIsFree(s, name, x);
      }
    }
  }

  /** Changing a volume's size or extents, but not its name. */
  lemma RetouchKeepsInv(s: Store, id: string, v: Volume)
    requires Inv(s) && id in s.volumes && v.name == s.volumes[id].name
    requires s.volumes[id].size <= v.size <= I64_MAX
    ensures Inv(s.(volumes := s.volumes[id := v]))
  {
  }

  lemma WriteKeepsInv(s: Store, call: Call)
    requires Inv(s) && call.Write?
    ensures Inv(Do(s, call).store)
  {
    var id, size := call.id, |call.bytes|;
    if id in s.volumes && call.offset + size <= s.volumes[id].size {
      var d := if id in s.data then s.data[id] else [];
      WrittenLength(d, call.offset, call.bytes);
      RewriteKeepsInv(s, id, Written(d, call.offset, call.bytes));
    }
  }

  lemma WrittenLength(d: seq<Byte>, offset: nat, bytes: seq<Byte>)
    ensures |Written(d, offset, bytes)| == if |d| < offset + |bytes| then offset + |bytes| else |d|
  {
  }

  lemma RewriteKeepsInv(s: Store, id: string, d: seq<Byte>)
    requires Inv(s) && id in s.volumes && |d| <= s.volumes[id].size
    ensures Inv(s.(data := s.data[id := d]))
  {
  }

  lemma CallKeepsInv(s: Store, call: Call)
    requires Inv(s) && Admitted(call)
    ensures Inv(Do(s, call).store)
  {
    match call
    case Create(id, name, size) => CreateKeepsInv(s, id, name, size);
    case Clone(id, snapshot, name, request) =>
      if snapshot in s.snapshots {
        var from := s.snapshots[snapshot];
        var size := if request.Some? then request.value else from.size;
        CreateKeepsInv(s, id, name, size);
        var t := DoCreate(s, id, name, size).store;
        if id in t.volumes { RetouchKeepsInv(t, id, t.volumes[id].(extents := from.extents)); }
      }
    case Resize(id, size) =>
      if id in s.volumes && s.volumes[id].size <= size { RetouchKeepsInv(s, id, s.volumes[id].(size := size)); }
    case SetExtents(id, extents) =>
      if id in s.volumes { RetouchKeepsInv(s, id, s.volumes[id].(extents := extents)); }
    case Write(_, _, _) => WriteKeepsInv(s, call);
    case _ =>
  }

  lemma WrittenBytes(d: seq<Byte>, offset: nat, bytes: seq<Byte>, k: nat)
    ensures |Written(d, offset, bytes)| == (if |d| < offset + |bytes| then offset + |bytes| else |d|)
    ensures k < |Written(d, offset, bytes)| ==>
              Written(d, offset, bytes)[k] == (if offset <= k < offset + |bytes| then bytes[k - offset]
                                               else if k < |d| then d[k] else 0)
  {
  }

  /** The byte at `k` after an accepted write. */
  lemma WrittenByteAt(s: Store, id: string, offset: U64, bytes: seq<Byte>, k: nat)
    requires id in s.volumes && SaturatingAdd(offset, |bytes|) == offset + |bytes| <= s.volumes[id].size
    ensures ByteAt(DoWrite(s, id, offset, bytes).store, id, k)
         == if offset <= k < offset + |bytes| then bytes[k - offset] else ByteAt(s, id, k)
  {
    var d := if id in s.data then s.data[id] else [];
    WrittenBytes(d, offset, bytes, k);
  }

  lemma WriteAgrees(s: Store, f: Shelf, call: Call)
    requires Inv(s) && Agrees(s, f) && call.Write?
    ensures Do(s, call).reply == Ask(f, call).reply
    ensures Agrees(Do(s, call).store, Ask(f, call).shelf)
  {
    if call.id in s.volumes {
      assert Matches(s, f, call.id);
      if call.offset + |call.bytes| <= s.volumes[call.id].size { AcceptedWriteAgrees(s, f, call); }
    }
  }

  lemma WrittenMatches(s: Store, f: Shelf, call: Call)
    requires call.Write? && call.id in s.volumes && call.id in f.sheets && Matches(s, f, call.id)
    requires SaturatingAdd(call.offset, |call.bytes|) == call.offset + |call.bytes| <= s.volumes[call.id].size
    ensures Matches(Do(s, call).store, Ask(f, call).shelf, call.id)
  {
    var t, g := Do(s, call).store, Ask(f, call).shelf;
    forall k: nat ensures ByteAt(t, call.id, k) == g.sheets[call.id].byteAt(k) {
      WrittenByteAt(s, call.id, call.offset, call.bytes, k);
      assert ByteAt(s, call.id, k) == f.sheets[call.id].byteAt(k);
    }
  }

  lemma AcceptedWriteAgrees(s: Store, f: Shelf, call: Call)
    requires Inv(s) && Agrees(s, f) && call.Write?
    requires call.id in s.volumes && call.offset + |call.bytes| <= s.volumes[call.id].size
    ensures Do(s, call).reply == Ask(f, call).reply
    ensures Agrees(Do(s, call).store, Ask(f, call).shelf)
  {
    var t, g := Do(s, call).store, Ask(f, call).shelf;
    assert Matches(s, f, call.id);
    forall id | id in t.volumes ensures Matches(t, g, id) {
      assert Matches(s, f, id);
      if id == call.id { WrittenMatches(s, f, call); } else { Untouched(s, f, t, g, id); }
    }
  }

  lemma ReadShape(s: Store, id: string, offset: U64, len: U64)
    requires Inv(s) && id in s.volumes && offset + len <= s.volumes[id].size
    ensures DoRead(s, id, offset, len).reply.Bytes?
    ensures |DoRead(s, id, offset, len).reply.bytes| == len
  {
    NoOverflow(offset, len);
  }

  /** An accepted read, byte by byte. */
  lemma ReadBytesAt(s: Store, id: string, offset: U64, len: U64, i: nat)
    requires Inv(s) && id in s.volumes && offset + len <= s.volumes[id].size && i < len
    ensures DoRead(s, id, offset, len).reply.Bytes?
    ensures |DoRead(s, id, offset, len).reply.bytes| == len
    ensures DoRead(s, id, offset, len).reply.bytes[i] == ByteAt(s, id, offset + i)
  {
    NoOverflow(offset, len);
    if id in s.data {
      var d := s.data[id];
      var start, end := Min(offset, |d|), Min(offset + len, |d|);
      assert DoRead(s, id, offset, len).reply.bytes == d[start..end] + Zeros(len - (end - start));
    }
  }

  lemma NoOverflow(offset: U64, len: U64)
    requires offset + len <= I64_MAX
    ensures SaturatingAdd(offset, len) == offset + len
    ensures (offset + len) % (U64_MAX + 1) == offset + len
  {
  }

  lemma ReadAgrees(s: Store, f: Shelf, call: Call)
    requires Inv(s) && Agrees(s, f) && call.Read?
    ensures Do(s, call).reply == Ask(f, call).reply
  {
    if call.id in s.volumes {
      assert Matches(s, f, call.id);
      if call.offset + call.len <= s.volumes[call.id].size { AcceptedReadAgrees(s, f, call); }
    }
  }

  lemma AcceptedReadAgrees(s: Store, f: Shelf, call: Call)
    requires Inv(s) && call.Read? && call.id in s.volumes && call.id in f.sheets && Matches(s, f, call.id)
    requires call.offset + call.len <= s.volumes[call.id].size
    ensures DoRead(s, call.id, call.offset, call.len).reply
         == Bytes(Excerpt(f.sheets[call.id].byteAt, call.offset, call.len))
  {
    var got := DoRead(s, call.id, call.offset, call.len).reply;
    var want := Excerpt(f.sheets[call.id].byteAt, call.offset, call.len);
    ReadShape(s, call.id, call.offset, call.len);
    forall i | 0 <= i < call.len ensures got.bytes[i] == want[i] {
      ReadBytesAt(s, call.id, call.offset, call.len, i);
    }
    assert got.bytes == want;
  }

  lemma NamesAgree(s: Store, f: Shelf, name: string)
    requires Agrees(s, f)
    ensures NameInUse(s, name) <==> SheetNamed(f, name)
  {
    if NameInUse(s, name) {
      var id :| id in s.volumes && s.volumes[id].name == name;
      assert Matches(s, f, id);
    }
    if SheetNamed(f, name) {
      var id :| id in f.sheets && f.sheets[id].name == name;
      assert Matches(s, f, id);
    }
  }

  /** Volumes whose bytes a call does not touch stay matched. */
  lemma Untouched(s: Store, f: Shelf, t: Store, g: Shelf, id: string)
    requires id in s.volumes && id in f.sheets && Matches(s, f, id)
    requires id in t.volumes && id in g.sheets
    requires t.volumes[id] == Volume(g.sheets[id].name, g.sheets[id].size, g.sheets[id].extents)
    requires g.sheets[id].byteAt == f.sheets[id].byteAt
    requires forall k: nat :: ByteAt(t, id, k) == ByteAt(s, id, k)
    ensures Matches(t, g, id)
  {
    forall k: nat ensures ByteAt(t, id, k) == g.sheets[id].byteAt(k) {
      assert ByteAt(s, id, k) == f.sheets[id].byteAt(k);
    }
  }

  lemma AddAgrees(s: Store, f: Shelf, id: string, v: Volume)
    requires Inv(s) && Agrees(s, f) && id !in s.volumes
    ensures Agrees(s.(volumes := s.volumes[id := v]),
                   f.(sheets := f.sheets[id := Sheet(v.name, v.size, v.extents, (k: nat) => 0)]))
  {
    var t := s.(volumes := s.volumes[id := v]);
    var g := f.(sheets := f.sheets[id := Sheet(v.name, v.size, v.extents, (k: nat) => 0)]);
    forall x | x in t.volumes ensures Matches(t, g, x) {
      if x != id {
        assert Matches(s, f, x);
        Untouched(s, f, t, g, x);
      }
    }
  }

  lemma RetouchAgrees(s: Store, f: Shelf, id: string, size: U64, extents: nat)
    requires Agrees(s, f) && id in s.volumes
    ensures Agrees(s.(volumes := s.volumes[id := s.volumes[id].(size := size, extents := extents)]),
                   f.(sheets := f.sheets[id := f.sheets[id].(size := size, extents := extents)]))
  {
    var t := s.(volumes := s.volumes[id := s.volumes[id].(size := size, extents := extents)]);
    var g := f.(sheets := f.sheets[id := f.sheets[id].(size := size, extents := extents)]);
    assert Matches(s, f, id);
    forall x | x in t.volumes ensures Matches(t, g, x) {
      assert Matches(s, f, x);
      Untouched(s, f, t, g, x);
    }
  }

  lemma CreateAgrees(s: Store, f: Shelf, call: Call)
    requires Inv(s) && Agrees(s, f) && call.Create?
    ensures Do(s, call).reply == Ask(f, call).reply
    ensures Agrees(Do(s, call).store, Ask(f, call).shelf)
  {
    NamesAgree(s, f, call.name);
    if call.id !in s.volumes { AddAgrees(s, f, call.id, Volume(call.name, call.size, 0)); }
  }

  lemma CloneAgrees(s: Store, f: Shelf, call: Call)
    requires Inv(s) && Agrees(s, f) && call.Clone?
    ensures Do(s, call).reply == Ask(f, call).reply
    ensures Agrees(Do(s, call).store, Ask(f, call).shelf)
  {
    NamesAgree(s, f, call.name);
    if call.snapshot in s.snapshots {
      var from := s.snapshots[call.snapshot];
      var size := if call.request.Some? then call.request.value else from.size;
      if call.id in s.volumes {
        assert Matches(s, f, call.id);
        RetouchAgrees(s, f, call.id, s.volumes[call.id].size, from.extents);
      } else {
        var v := Volume(call.name, size, from.extents);
        AddAgrees(s, f, call.id, v);
        assert s.volumes[call.id := v.(extents := 0)][call.id := v] == s.volumes[call.id := v];
      }
    }
  }

  lemma OtherAgrees(s: Store, f: Shelf, call: Call)
    requires Inv(s) && Agrees(s, f)
    requires call.TakeSnapshot? || call.DeleteSnapshot? || call.FindSnapshot?
    ensures Do(s, call).reply == Ask(f, call).reply
    ensures Agrees(Do(s, call).store, Ask(f, call).shelf)
  {
    var t, g := Do(s, call).store, Ask(f, call).shelf;
    if call.TakeSnapshot? && call.volume in s.volumes { assert Matches(s, f, call.volume); }
    forall id | id in t.volumes ensures Matches(t, g, id) {
      assert Matches(s, f, id);
      Untouched(s, f, t, g, id);
    }
  }

  lemma DeleteAgrees(s: Store, f: Shelf, call: Call)
    requires Agrees(s, f) && call.Delete?
    ensures Do(s, call).reply == Ask(f, call).reply
    ensures Agrees(Do(s, call).store, Ask(f, call).shelf)
  {
    var t, g := Do(s, call).store, Ask(f, call).shelf;
    forall id | id in t.volumes ensures Matches(t, g, id) {
      assert Matches(s, f, id);
      Untouched(s, f, t, g, id);
    }
  }

  lemma ResizeAgrees(s: Store, f: Shelf, call: Call)
    requires Agrees(s, f) && call.Resize?
    ensures Do(s, call).reply == Ask(f, call).reply
    ensures Agrees(Do(s, call).store, Ask(f, call).shelf)
  {
    if call.id in s.volumes {
      assert Matches(s, f, call.id);
      RetouchAgrees(s, f, call.id, call.size, s.volumes[call.id].extents);
    }
  }

  lemma SetExtentsAgrees(s: Store, f: Shelf, call: Call)
    requires Agrees(s, f) && call.SetExtents?
    ensures Do(s, call).reply == Ask(f, call).reply
    ensures Agrees(Do(s, call).store, Ask(f, call).shelf)
  {
    if call.id in s.volumes {
      assert Matches(s, f, call.id);
      RetouchAgrees(s, f, call.id, s.volumes[call.id].size, call.extents);
    }
  }

  lemma CallAgrees(s: Store, f: Shelf, call: Call)
    requires Inv(s) && Agrees(s, f)
    ensures Do(s, call).reply == Ask(f, call).reply
    ensures Agrees(Do(s, call).store, Ask(f, call).shelf)
  {
    match call
    case Write(_, _, _) => WriteAgrees(s, f, call);
    case Read(_, _, _) => ReadAgrees(s, f, call);
    case Create(_, _, _) => CreateAgrees(s, f, call);
    case Clone(_, _, _, _) => CloneAgrees(s, f, call);
    case SetExtents(_, _) => SetExtentsAgrees(s, f, call);
    case Delete(_) => DeleteAgrees(s, f, call);
    case Resize(_, _) => ResizeAgrees(s, f, call);
    case _ => OtherAgrees(s, f, call);
  }

  /** A clone with nothing in between is its three sections: the lookup decides its size and extents, and
      a creation that fails ends it. */
  lemma CloneIsItsSections(s: Store, id: string, snapshot: string, name: string, request: Option<U64>)
    ensures var found := Do(s, FindSnapshot(snapshot)).reply;
            var whole := Do(s, Clone(id, snapshot, name, request));
            if !found.Found? then whole == Outcome(s, found)
            else
              var size := if request.Some? then request.value else found.frozen.size;
              if size < found.frozen.size then whole == Outcome(s, Refused(CloneTooSmall))
              else
                var made := Do(s, Create(id, name, size));
                if !made.reply.Named? then whole == made
                else whole == Outcome(Do(made.store, SetExtents(id, found.frozen.extents)).store, made.reply)
  {
  }

  datatype Session = Session(store: Store, replies: seq<Reply>)

  /** A history of calls against the buffer store, and against the byte-map store. */
  function Serve(calls: seq<Call>): (r: Session) {
    if calls == [] then Session(EMPTY, [])
    else
      var before := Serve(calls[..|calls| - 1]);
      var out := Do(before.store, calls[|calls| - 1]);
      Session(out.store, before.replies + [out.reply])
  }

  datatype Reference = Reference(shelf: Shelf, replies: seq<Reply>)

  function ServeReference(calls: seq<Call>): (r: Reference) {
    if calls == [] then Reference(Shelf(map[], map[]), [])
    else
      var before := ServeReference(calls[..|calls| - 1]);
      var out := Ask(before.shelf, calls[|calls| - 1]);
      Reference(out.shelf, before.replies + [out.reply])
  }

  /** For every history of calls with sizes the driver admits, clones interrupted by other calls included,
      the buffer store answers exactly as the byte-map store: each read returns, byte by byte, the last
      value written since the volume was created, or zero. No call panics, names stay unique, and buffers
      stay inside live volumes. */
  lemma {:induction false} HistoriesAgree(calls: seq<Call>)
    requires forall k | 0 <= k < |calls| :: Admitted(calls[k])
    ensures Serve(calls).replies == ServeReference(calls).replies
    ensures Crashed !in Serve(calls).replies
    ensures Inv(Serve(calls).store)
    ensures Agrees(Serve(calls).store, ServeReference(calls).shelf)
  {
    if calls != [] {
      var n := |calls| - 1;
      HistoriesAgree(calls[..n]);
      var s, f := Serve(calls[..n]).store, ServeReference(calls[..n]).shelf;
      CallKeepsInv(s, calls[n]);
      CallAgrees(s, f, calls[n]);
      assert Ask(f, calls[n]).reply != Crashed;
    }
  }

  /** The bounds check rules out overflow exactly for sizes below `u64::MAX`. */
  lemma BoundsCheckIsSound(size: U64)
    ensures (forall offset: U64, len: U64 :: SaturatingAdd(offset, len) <= size ==> offset + len <= U64_MAX)
       <==> size < U64_MAX
  {
    if size == U64_MAX {
      assert SaturatingAdd(U64_MAX, 1) <= size;
    }
  }

  // ---- Retries ----

  /** The same call delivered `k` times in a row. */
  function Deliver(s: Store, call: Call, k: nat): (t: Store) {
    if k == 0 then s else Do(Deliver(s, call, k - 1), call).store
  }

  predicate Retried(call: Call) {
    call.Create? || call.Delete? || call.Resize? || call.Write? || call.Clone?
  }

  lemma WrittenTwice(d: seq<Byte>, offset: nat, bytes: seq<Byte>)
    ensures Written(Written(d, offset, bytes), offset, bytes) == Written(d, offset, bytes)
  {
  }

  lemma WriteTwice(s: Store, id: string, offset: U64, bytes: seq<Byte>)
    ensures DoWrite(DoWrite(s, id, offset, bytes).store, id, offset, bytes) == DoWrite(s, id, offset, bytes)
  {
    var t := DoWrite(s, id, offset, bytes).store;
    if DoWrite(s, id, offset, bytes).reply.Done? {
      WrittenTwice(if id in s.data then s.data[id] else [], offset, bytes);
      assert t.data[id := t.data[id]] == t.data;
    }
  }

  lemma CloneTwice(s: Store, id: string, snapshot: string, name: string, request: Option<U64>)
    ensures DoClone(DoClone(s, id, snapshot, name, request).store, id, snapshot, name, request)
         == DoClone(s, id, snapshot, name, request)
  {
    var t := DoClone(s, id, snapshot, name, request).store;
    if DoClone(s, id, snapshot, name, request).reply.Named? {
      assert id in t.volumes && t.volumes[id].extents == s.snapshots[snapshot].extents;
      assert t.volumes[id := t.volumes[id].(extents := s.snapshots[snapshot].extents)] == t.volumes;
    }
  }

  lemma ResizeTwice(s: Store, id: string, size: U64)
    ensures DoResize(DoResize(s, id, size).store, id, size) == DoResize(s, id, size)
  {
    var t := DoResize(s, id, size).store;
    if DoResize(s, id, size).reply.Done? {
      assert t.volumes[id := t.volumes[id].(size := size)] == t.volumes;
    }
  }

  lemma TwiceIsOnce(s: Store, call: Call)
    requires Retried(call)
    ensures Do(Do(s, call).store, call).store == Do(s, call).store
    ensures !call.Delete? ==> Do(Do(s, call).store, call).reply == Do(s, call).reply
  {
    match call
    case Write(id, offset, bytes) => WriteTwice(s, id, offset, bytes);
    case Clone(id, snapshot, name, request) => CloneTwice(s, id, snapshot, name, request);
    case Resize(id, size) => ResizeTwice(s, id, size);
    case _ =>
  }

  /** The failover client may deliver a mutation any number of times: one or more deliveries leave
      the same store as one. */
  lemma {:induction false} RetriesAreHarmless(s: Store, call: Call, k: nat)
    requires Retried(call) && k >= 1
    ensures Deliver(s, call, k) == Do(s, call).store
  {
    if k == 1 {
      assert Deliver(s, call, 0) == s;
    } else {
      RetriesAreHarmless(s, call, k - 1);
      TwiceIsOnce(s, call);
    }
  }
}
