/**
 * The argument checks that the WebGL client context
 * (dom/canvas/ClientWebGLContext.h) performs before it forwards a call to
 * the host. Each check is a function of the call's arguments; the state a
 * check reads (only whether the context is lost) is passed in, and the
 * error it would enqueue is returned as a value.
 */
module WebGLValidate {
  import opened Wrappers

  /** GL error codes the checks raise. */
  const INVALID_VALUE: nat := 0x0501
  const INVALID_OPERATION: nat := 0x0502

  const TwoTo32: int := 0x1_0000_0000
  const TwoTo64: int := 0x1_0000_0000_0000_0000

  type Int32 = x: int | -0x8000_0000 <= x < 0x8000_0000
  type Uint32 = x: int | 0 <= x < 0x1_0000_0000
  type Int64 = x: int | -0x8000_0000_0000_0000 <= x < 0x8000_0000_0000_0000
  type Uint64 = x: int | 0 <= x < 0x1_0000_0000_0000_0000
  type GLenum = Uint32

  /** static_cast<uint32_t> of a 32-bit signed value: two's-complement wrap-around. */
  function ToUint32(x: Int32): (r: Uint32)
    ensures x >= 0 ==> r == x
    ensures x < 0 ==> r == x + TwoTo32
  {
    x % TwoTo32
  }

  /** static_cast<uint64_t> of a 64-bit signed value: two's-complement wrap-around. */
  function ToUint64(x: Int64): (r: Uint64)
    ensures x >= 0 ==> r == x
    ensures x < 0 ==> r == x + TwoTo64
  {
    x % TwoTo64
  }

  /** Why a check rejected its arguments (the text of the enqueued message). */
  datatype Reason =
    | OffsetTooLarge                 // the element offset lies past the end of the data
    | OverrideTooLarge               // the length override exceeds what follows the offset
    | MustBeNonNegative(argName: string)
    | SizeNotPositive                // a non-null buffer was bound with a size below one
    | TooFewViewLayers               // a texture was attached with fewer than one view layer
    | EndBeforeStart                 // the index range ends before it starts
    | ListTooShort(minLength: nat)   // the list holds fewer than the array's length
    | ListConversionFailed           // the list could not be read as a typed array

  /** An error a check enqueues: the GL error code and its message. */
  datatype GlError = GlError(code: nat, reason: Reason)

  /** What an entry point does with a call: nothing (lost context), an error, or a forwarded call. */
  datatype Outcome<+A> = Ignored | Rejected(error: GlError) | Forwarded(args: A)

  // ---------------------------------------------------------------------------
  // ValidateSubrange

  /**
   * The sub-range of `data` that starts at `elemOffset` and, when the
   * override is non-zero, is `elemLengthOverride` elements long.
   */
  function ValidateSubrange<T>(data: seq<T>, elemOffset: nat, elemLengthOverride: nat): (r: Result<seq<T>, GlError>)
    ensures r.Err? <==> elemOffset > |data| || elemLengthOverride > |data| - elemOffset
    ensures r.Err? ==> r.error.code == INVALID_VALUE
    ensures r.Err? ==> (r.error.reason == OffsetTooLarge <==> elemOffset > |data|)
    ensures r.Ok? ==> |r.value| == (if elemLengthOverride == 0 then |data| - elemOffset else elemLengthOverride)
    ensures r.Ok? ==> forall i :: 0 <= i < |r.value| ==> r.value[i] == data[elemOffset + i]
  {
    if elemOffset > |data| then
      Err(GlError(INVALID_VALUE, OffsetTooLarge))
    else
      var rest := data[elemOffset..];
      if elemLengthOverride != 0 then
        if elemLengthOverride > |rest| then
          Err(GlError(INVALID_VALUE, OverrideTooLarge))
        else
          Ok(rest[..elemLengthOverride])
      else
        Ok(rest)
  }

  /** A zero override takes everything after the offset: the sub-range ends where `data` ends. */
  lemma SubrangeReachesEnd<T>(data: seq<T>, elemOffset: nat)
    requires elemOffset <= |data|
    ensures ValidateSubrange(data, elemOffset, 0) == Ok(data[elemOffset..])
  {
  }

  /** Taking the sub-range twice: an override equal to the remaining length changes nothing. */
  lemma SubrangeFullOverride<T>(data: seq<T>, elemOffset: nat)
    requires elemOffset < |data|
    ensures ValidateSubrange(data, elemOffset, |data| - elemOffset) == ValidateSubrange(data, elemOffset, 0)
  {
    var r := ValidateSubrange(data, elemOffset, |data| - elemOffset);
    assert r.Ok? && r.value == data[elemOffset..];
  }

  // ---------------------------------------------------------------------------
  // ValidateNonNegative

  function ValidateNonNegative(argName: string, val: Int64): (r: Option<GlError>)
    ensures r.None? <==> val >= 0
    ensures r.Some? ==> r.value == GlError(INVALID_VALUE, MustBeNonNegative(argName))
  {
    if val < 0 then Some(GlError(INVALID_VALUE, MustBeNonNegative(argName))) else None
  }

  // ---------------------------------------------------------------------------
  // BindBufferBase / BindBufferRange

  /** The arguments handed on to BindBufferRangeImpl (target and index pass through unchanged). */
  datatype BindRange = BindRange(target: GLenum, index: Uint32, buffer: Option<nat>, offset: Uint64, size: Uint64)

  function BindBufferBase(contextLost: bool, target: GLenum, index: Uint32, buffer: Option<nat>): (r: Outcome<BindRange>)
    ensures r.Ignored? <==> contextLost
    ensures !contextLost ==> r == Forwarded(BindRange(target, index, buffer, 0, 0))
  {
    if contextLost then Ignored else Forwarded(BindRange(target, index, buffer, 0, 0))
  }

  /**
   * A non-null buffer needs a non-negative offset (checked first) and a
   * positive size; a null buffer is forwarded whatever the offset and size,
   * after the unsigned casts.
   */
  function BindBufferRange(contextLost: bool, target: GLenum, index: Uint32, buffer: Option<nat>,
                           offset: Int64, size: Int64): (r: Outcome<BindRange>)
    ensures r.Ignored? <==> contextLost
    ensures r.Rejected? <==> !contextLost && buffer.Some? && (offset < 0 || size < 1)
    ensures r.Rejected? ==> r.error.code == INVALID_VALUE
    ensures r.Rejected? ==> (r.error.reason == MustBeNonNegative("offset") <==> offset < 0)
    ensures r.Forwarded? ==> r.args == BindRange(target, index, buffer, ToUint64(offset), ToUint64(size))
    ensures r.Forwarded? && buffer.Some? ==> r.args.offset == offset && r.args.size == size > 0
  {
    if contextLost then Ignored
    else if buffer.Some? && ValidateNonNegative("offset", offset).Some? then
      Rejected(ValidateNonNegative("offset", offset).value)
    else if buffer.Some? && size < 1 then
      Rejected(GlError(INVALID_VALUE, SizeNotPositive))
    else
      Forwarded(BindRange(target, index, buffer, ToUint64(offset), ToUint64(size)))
  }

  /** Unbinding with a null buffer forwards negative arguments wrapped to large unsigned values. */
  lemma NullBufferRangeWraps(target: GLenum, index: Uint32)
    ensures BindBufferRange(false, target, index, None, -1, -1)
         == Forwarded(BindRange(target, index, None, TwoTo64 - 1, TwoTo64 - 1))
  {
  }

  // ---------------------------------------------------------------------------
  // FramebufferTextureMultiview

  /** The arguments handed on to FramebufferAttach besides its zero image target and null renderbuffer. */
  datatype Attach = Attach(target: GLenum, attachSlot: GLenum, tex: Option<nat>,
                           mipLevel: Uint32, zLayerBase: Uint32, numViewLayers: Uint32)

  function FramebufferTextureMultiview(contextLost: bool, target: GLenum, attachSlot: GLenum, tex: Option<nat>,
                                       mipLevel: Int32, zLayerBase: Int32, numViewLayers: Int32): (r: Outcome<Attach>)
    ensures r.Ignored? <==> contextLost
    ensures r.Rejected? <==> !contextLost && tex.Some? && numViewLayers < 1
    ensures r.Rejected? ==> r.error == GlError(INVALID_VALUE, TooFewViewLayers)
    ensures r.Forwarded? ==> r.args == Attach(target, attachSlot, tex, ToUint32(mipLevel),
                                              ToUint32(zLayerBase), ToUint32(numViewLayers))
    ensures r.Forwarded? && tex.Some? ==> r.args.numViewLayers == numViewLayers >= 1
  {
    if contextLost then Ignored
    else if tex.Some? && numViewLayers < 1 then Rejected(GlError(INVALID_VALUE, TooFewViewLayers))
    else Forwarded(Attach(target, attachSlot, tex, ToUint32(mipLevel), ToUint32(zLayerBase), ToUint32(numViewLayers)))
  }

  // ---------------------------------------------------------------------------
  // DrawRangeElements

  /** The arguments handed on to DrawElementsInstanced: one instance, the range hint dropped. */
  datatype DrawElements = DrawElements(mode: GLenum, count: Int32, elemType: GLenum, byteOffset: Int64, instanceCount: Int32)

  /** No lost-context check comes first here: the range check runs on a lost context too. */
  function DrawRangeElements(mode: GLenum, start: Uint32, end: Uint32, count: Int32,
                             elemType: GLenum, byteOffset: Int64): (r: Outcome<DrawElements>)
    ensures !r.Ignored?
    ensures r.Rejected? <==> end < start
    ensures r.Rejected? ==> r.error == GlError(INVALID_VALUE, EndBeforeStart)
    ensures r.Forwarded? ==> r.args == DrawElements(mode, count, elemType, byteOffset, 1)
  {
    if end < start then Rejected(GlError(INVALID_VALUE, EndBeforeStart))
    else Forwarded(DrawElements(mode, count, elemType, byteOffset, 1))
  }

  // ---------------------------------------------------------------------------
  // MakeArrayFromList

  /**
   * Copies the first `n` elements of a list into a fixed array. `converted`
   * is the list's data when the typed-array conversion succeeds, None when
   * it fails before the copy callback runs.
   */
  function MakeArrayFromList<T>(converted: Option<seq<T>>, n: nat): (r: Result<seq<T>, GlError>)
    ensures r.Ok? <==> converted.Some? && |converted.value| >= n
    ensures r.Ok? ==> |r.value| == n && r.value == converted.value[..n]
    ensures r.Err? ==> r.error.code == INVALID_VALUE
    ensures r.Err? ==> r.error.reason == (if converted.Some? then ListTooShort(n) else ListConversionFailed)
  {
    match converted
    case None => Err(GlError(INVALID_VALUE, ListConversionFailed))
    case Some(data) =>
      if n > |data| then Err(GlError(INVALID_VALUE, ListTooShort(n)))
      else Ok(data[..n])
  }
}
