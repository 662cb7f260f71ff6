/** The arguments of function and variable registration: the client packs its own, the server unpacks them
    into structs of its own. Plain ints travel as their 32-bit patterns. */
module Registration {
  import opened Wrappers
  import opened Wire
  import opened Codec
  import opened Packets

  // ---------- functions ----------

  /** A pointer argument: its address, and the ints it points to unless it is NULL. */
  datatype Pointee = Pointee(address: nat, ints: seq<nat>)

  /** The arguments of __cudaRegisterFunction. */
  datatype FuncCall = FuncCall(
    handle: nat, hostFun: CStr, hostFunAddress: nat, deviceFun: CStr, deviceName: CStr, threadLimit: nat,
    tid: Pointee, bid: Pointee, bDim: Pointee, gDim: Pointee, wSize: Pointee)

  /** reg_func_args_t: pointers lead to fresh copies, of which only the contents matter. */
  datatype FuncArgs = FuncArgs(
    handle: nat, hostFun: CStr, hostFEaddr: nat, deviceFun: CStr, deviceName: CStr, threadLimit: nat,
    tid: Option<seq<nat>>, bid: Option<seq<nat>>, bDim: Option<seq<nat>>, gDim: Option<seq<nat>>,
    wSize: Option<seq<nat>>)

  const FUNC: seq<Shape> := [
    Number(LONG_SIZE), Text, Number(LONG_SIZE), Text, Text, Number(INT_SIZE),
    Pointer(3), Pointer(3), Pointer(3), Pointer(3), Pointer(1)]

  function PointerField(p: Pointee): Field { Ref(p.address, p.ints) }

  function FuncFields(c: FuncCall): (fs: seq<Field>)
    ensures |fs| == |FUNC|
  {
    [Num(c.handle), Str(c.hostFun), Num(c.hostFunAddress), Str(c.deviceFun), Str(c.deviceName),
     Num(c.threadLimit), PointerField(c.tid), PointerField(c.bid), PointerField(c.bDim), PointerField(c.gDim),
     PointerField(c.wSize)]
  }

  function CopyIn(f: Field): Option<seq<nat>> {
    if f.Ref? && f.address != 0 then Some(f.target) else None
  }

  function FuncFrom(fs: seq<Field>): FuncArgs
    requires |fs| == |FUNC|
  {
    FuncArgs(NumIn(fs[0]), StrIn(fs[1]), NumIn(fs[2]), StrIn(fs[3]), StrIn(fs[4]), NumIn(fs[5]),
             CopyIn(fs[6]), CopyIn(fs[7]), CopyIn(fs[8]), CopyIn(fs[9]), CopyIn(fs[10]))
  }

  predicate FuncFits(c: FuncCall) {
    PacketFits(FUNC, FuncFields(c))
  }

  function EncFunc(c: FuncCall): seq<byte>
    requires FuncFits(c)
  {
    EncPacket(FUNC, FuncFields(c))
  }

  function DecFunc(b: seq<byte>): Option<(FuncArgs, nat)> {
    var (fs, n) :- DecPacket(FUNC, b);
    Some((FuncFrom(fs), n))
  }

  function Copied(p: Pointee): Option<seq<nat>> {
    if p.address == 0 then None else Some(p.ints)
  }

  /** What the server must see of a call. */
  function Received(c: FuncCall): FuncArgs {
    FuncArgs(c.handle, NormStr(c.hostFun), c.hostFunAddress, NormStr(c.deviceFun), NormStr(c.deviceName),
             c.threadLimit, Copied(c.tid), Copied(c.bid), Copied(c.bDim), Copied(c.gDim), Copied(c.wSize))
  }

  lemma ReceivedFields(c: FuncCall)
    requires FuncFits(c)
    ensures FuncFrom(NormPacket(FUNC, FuncFields(c))) == Received(c)
  {
  }

  /** Whichever pointers are NULL, the server sees the arguments of the call; "" reads as NULL. */
  lemma FuncRoundTrip(c: FuncCall, rest: seq<byte>)
    requires FuncFits(c)
    ensures DecFunc(EncFunc(c) + rest) == Some((Received(c), |EncFunc(c)|))
  {
    PacketRoundTrip(FUNC, FuncFields(c), rest);
    ReceivedFields(c);
  }

  /** The bytes of the arguments. */
  lemma FuncLayout(c: FuncCall)
    requires FuncFits(c)
    ensures EncFunc(c) == Concat([
              LE(c.handle, 8), EncStr(c.hostFun), LE(c.hostFunAddress, 8), EncStr(c.deviceFun), EncStr(c.deviceName),
              LE(c.threadLimit, 4), EncPointer(c.tid.address, c.tid.ints), EncPointer(c.bid.address, c.bid.ints),
              EncPointer(c.bDim.address, c.bDim.ints), EncPointer(c.gDim.address, c.gDim.ints),
              EncPointer(c.wSize.address, c.wSize.ints)])
  {
    assert FieldCodes(FUNC, FuncFields(c)) == [
      LE(c.handle, 8), EncStr(c.hostFun), LE(c.hostFunAddress, 8), EncStr(c.deviceFun), EncStr(c.deviceName),
      LE(c.threadLimit, 4), EncPointer(c.tid.address, c.tid.ints), EncPointer(c.bid.address, c.bid.ints),
      EncPointer(c.bDim.address, c.bDim.ints), EncPointer(c.gDim.address, c.gDim.ints),
      EncPointer(c.wSize.address, c.wSize.ints)];
  }

  /** The server finds NULL where the client had NULL, and otherwise the ints the pointer led to. */
  lemma FuncComesBack(c: FuncCall, packet: seq<byte>, rest: seq<byte>)
    requires FuncFits(c) && packet == EncFunc(c)
    ensures DecFunc(packet + rest).Some?
    ensures var r := DecFunc(packet + rest).value.0;
            && r.handle == c.handle && r.hostFEaddr == c.hostFunAddress && r.threadLimit == c.threadLimit
            && r.hostFun == (if StrLen(c.hostFun) == 0 then Null else c.hostFun)
            && r.deviceFun == (if StrLen(c.deviceFun) == 0 then Null else c.deviceFun)
            && r.deviceName == (if StrLen(c.deviceName) == 0 then Null else c.deviceName)
            && r.tid == (if c.tid.address == 0 then None else Some(c.tid.ints))
            && r.bid == (if c.bid.address == 0 then None else Some(c.bid.ints))
            && r.bDim == (if c.bDim.address == 0 then None else Some(c.bDim.ints))
            && r.gDim == (if c.gDim.address == 0 then None else Some(c.gDim.ints))
            && r.wSize == (if c.wSize.address == 0 then None else Some(c.wSize.ints))
  {
    FuncRoundTrip(c, rest);
  }

  /** l_getSize_regFuncArgs and packRegFuncArgs: the packet is filled to the last byte. */
  method PackRegFuncArgs(c: FuncCall) returns (packet: array<byte>)
    requires FuncFits(c)
    ensures fresh(packet) && packet[..] == EncFunc(c)
  {
    packet := PackRecord(FUNC, FuncFields(c));
  }

  /** unpackRegFuncArgs */
  method UnpackRegFuncArgs(src: seq<byte>) returns (args: FuncArgs)
    requires DecFunc(src).Some?
    ensures args == DecFunc(src).value.0
  {
    var fs, _, _ := UnpackPacket(src, FUNC);
    args := FuncFrom(fs);
  }

  // ---------- variables ----------

  /** The arguments of __cudaRegisterVar, and equally reg_var_args_t. */
  datatype VarArgs = VarArgs(
    handle: nat, hostVar: nat, deviceAddress: CStr, deviceName: CStr,
    ext: nat, size: nat, constant: nat, global: nat)

  const VAR: seq<Shape> := [
    Number(LONG_SIZE), Number(LONG_SIZE), Text, Text,
    Number(INT_SIZE), Number(INT_SIZE), Number(INT_SIZE), Number(INT_SIZE)]

  function VarFields(v: VarArgs): (fs: seq<Field>)
    ensures |fs| == |VAR|
  {
    [Num(v.handle), Num(v.hostVar), Str(v.deviceAddress), Str(v.deviceName),
     Num(v.ext), Num(v.size), Num(v.constant), Num(v.global)]
  }

  function VarFrom(fs: seq<Field>): VarArgs
    requires |fs| == |VAR|
  {
    VarArgs(NumIn(fs[0]), NumIn(fs[1]), StrIn(fs[2]), StrIn(fs[3]),
            NumIn(fs[4]), NumIn(fs[5]), NumIn(fs[6]), NumIn(fs[7]))
  }

  predicate VarFits(v: VarArgs) {
    PacketFits(VAR, VarFields(v))
  }

  function EncVar(v: VarArgs): seq<byte>
    requires VarFits(v)
  {
    EncPacket(VAR, VarFields(v))
  }

  function DecVar(b: seq<byte>): Option<(VarArgs, nat)> {
    var (fs, n) :- DecPacket(VAR, b);
    Some((VarFrom(fs), n))
  }

  lemma VarRoundTrip(v: VarArgs, rest: seq<byte>)
    requires VarFits(v)
    ensures var back := v.(deviceAddress := NormStr(v.deviceAddress), deviceName := NormStr(v.deviceName));
            DecVar(EncVar(v) + rest) == Some((back, |EncVar(v)|))
  {
    var back := v.(deviceAddress := NormStr(v.deviceAddress), deviceName := NormStr(v.deviceName));
    assert NormPacket(VAR, VarFields(v)) == VarFields(back);
    PacketRoundTrip(VAR, VarFields(v), rest);
  }

  /** The bytes of the arguments. */
  lemma VarLayout(v: VarArgs)
    requires VarFits(v)
    ensures EncVar(v) == Concat([
              LE(v.handle, 8), LE(v.hostVar, 8), EncStr(v.deviceAddress), EncStr(v.deviceName),
              LE(v.ext, 4), LE(v.size, 4), LE(v.constant, 4), LE(v.global, 4)])
  {
    assert FieldCodes(VAR, VarFields(v)) == [
      LE(v.handle, 8), LE(v.hostVar, 8), EncStr(v.deviceAddress), EncStr(v.deviceName),
      LE(v.ext, 4), LE(v.size, 4), LE(v.constant, 4), LE(v.global, 4)];
  }

  /** l_getSize_regVar and packRegVar */
  method PackRegVar(v: VarArgs) returns (packet: array<byte>)
    requires VarFits(v)
    ensures fresh(packet) && packet[..] == EncVar(v)
  {
    packet := PackRecord(VAR, VarFields(v));
  }

  /** unpackRegVar */
  method UnpackRegVar(src: seq<byte>) returns (v: VarArgs)
    requires DecVar(src).Some?
    ensures v == DecVar(src).value.0
  {
    var fs, _, _ := UnpackPacket(src, VAR);
    v := VarFrom(fs);
  }
}
