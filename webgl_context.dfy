/**
 * The bookkeeping of the WebGL client context (dom/canvas/ClientWebGLContext.h):
 * generational validity of resource handles, the keep-alive tokens of
 * programs and shaders, the id and sync counters, the attribution of errors
 * to the outermost API call, the coalesced deferred flush, and the entry
 * points whose argument checks are visible in the header.
 *
 * A generation is the NotLostData record a live context owns. Handles keep a
 * weak reference to the record that was current when they were made; a lost
 * context owns none, and a restored one owns a new record, so object
 * identity plays the part of the weak pointer comparison.
 */
module ClientWebGL {
  import opened Wrappers
  import opened WebGLValidate

  /** The kinds of resource handle the client hands out. */
  datatype ObjectKind =
    | Buffer | Framebuffer | Program | Query | Renderbuffer | Sampler
    | Shader | Sync | Texture | TransformFeedback | UniformLocation | VertexArray

  /** The error raised when a deleted handle is used. */
  function ErrorOnDeleted(kind: ObjectKind): (r: nat)
    ensures r == INVALID_VALUE <==> kind == Program || kind == Shader
    ensures r == INVALID_OPERATION <==> !(kind == Program || kind == Shader)
  {
    if kind == Program || kind == Shader then INVALID_VALUE else INVALID_OPERATION
  }

  /** The per-generation record of a live context; only the bound draw framebuffer is modelled. */
  class NotLostData {
    var boundDrawFb: ObjectJS?

    constructor()
      ensures boundDrawFb == null
    {
      boundDrawFb := null;
    }
  }

  /**
   * The keep-alive token of a program or a shader. `strong` counts the
   * shared owners (the object itself, a program's shader attachments, an
   * active transform feedback); the token is alive while it is positive.
   */
  class KeepAlive {
    var parent: ObjectJS?
    var strong: nat

    constructor(parent: ObjectJS?)
      ensures this.parent == parent && strong == 1
    {
      this.parent := parent;
      strong := 1;
    }

    /** Copying the shared pointer: one more owner. */
    method Share()
      modifies this
      ensures strong == old(strong) + 1 && parent == old(parent)
    {
      strong := strong + 1;
    }

    /** Resetting one shared pointer: one owner fewer. */
    method Release()
      requires strong >= 1
      modifies this
      ensures strong == old(strong) - 1 && parent == old(parent)
    {
      strong := strong - 1;
    }
  }

  /** A resource handle as the page sees it. */
  class ObjectJS {
    const kind: ObjectKind
    const generation: NotLostData?
    const id: nat
    var deleteRequested: bool
    /** The object's own strong reference to its token (programs and shaders only). */
    var keepAlive: KeepAlive?
    /** The weak reference to the same token, kept for IsDeleted. */
    const keepAliveWeak: KeepAlive?

    /** Programs and shaders own a token; other kinds have none. */
    ghost predicate Valid()
      reads this, keepAliveWeak
    {
      && ((kind == Program || kind == Shader) <==> keepAliveWeak != null)
      && (keepAlive != null ==> keepAlive == keepAliveWeak && keepAliveWeak.strong >= 1)
    }

    /**
     * A new handle belongs to the context's current generation and takes the
     * next id; a program or a shader starts with a token it solely owns.
     */
    constructor(webgl: ClientWebGLContext, kind: ObjectKind)
      requires webgl.Valid()
      modifies webgl`lastId, webgl`issuedIds
      ensures Valid() && webgl.Valid()
      ensures this.kind == kind && generation == webgl.notLost && !deleteRequested
      ensures id == webgl.lastId == old(webgl.lastId) + 1 && id !in old(webgl.issuedIds)
      ensures kind == Program || kind == Shader ==>
        keepAlive == keepAliveWeak && fresh(keepAlive) && keepAlive.parent == this && keepAlive.strong == 1
    {
      var newId := webgl.NextId();
      this.kind := kind;
      generation := webgl.notLost;
      id := newId;
      deleteRequested := false;
      var token: KeepAlive? := null;
      if kind == Program || kind == Shader {
        token := new KeepAlive(null);
      }
      keepAlive := token;
      keepAliveWeak := token;
      new;
      if token != null {
        token.parent := this;
      }
    }

    /** A handle is for the context while the context's generation record is the one it was made in. */
    predicate IsForContext(context: ClientWebGLContext): (r: bool)
      reads context
      ensures r ==> !context.IsContextLost() && generation != null
    {
      context.notLost != null && context.notLost == generation
    }

    /** Programs and shaders are deleted once their token has no owner; other kinds once deletion was requested. */
    predicate IsDeleted(): (r: bool)
      requires Valid()
      reads this, keepAliveWeak
      ensures kind == Program || kind == Shader ==> (r <==> keepAliveWeak.strong == 0)
      ensures kind != Program && kind != Shader ==> (r <==> deleteRequested)
    {
      if kind == Program || kind == Shader then keepAliveWeak.strong == 0 else deleteRequested
    }

    predicate IsUsable(context: ClientWebGLContext): (r: bool)
      requires Valid()
      reads this, keepAliveWeak, context
      ensures r ==> !context.IsContextLost() && !IsDeleted()
    {
      IsForContext(context) && !IsDeleted()
    }

    /** Checks that the handle is usable, recording an invalid-use warning when it is not. */
    method ValidateUsable(context: ClientWebGLContext, argName: string) returns (ok: bool)
      requires Valid()
      modifies context`invalidUses
      ensures ok <==> !context.IsContextLost() && generation == context.notLost && !IsDeleted()
      ensures ok == IsUsable(context)
      ensures context.invalidUses == old(context.invalidUses) + (if ok then [] else [InvalidUse(id, argName)])
    {
      if IsUsable(context) {
        return true;
      }
      context.invalidUses := context.invalidUses + [InvalidUse(id, argName)];
      return false;
    }

    /**
     * The program / shader destructor: drop the object's own token, then, if
     * other owners keep the token alive, clear its back-pointer.
     */
    method Finalize()
      requires Valid() && (kind == Program || kind == Shader)
      modifies this, keepAliveWeak
      ensures keepAlive == null && keepAliveWeak != null
      ensures keepAliveWeak.strong == old(keepAliveWeak.strong) - (if old(keepAlive) != null then 1 else 0)
      ensures keepAliveWeak.strong > 0 ==> keepAliveWeak.parent == null
      ensures keepAliveWeak.strong == 0 ==> keepAliveWeak.parent == old(keepAliveWeak.parent)
    {
      if keepAlive != null {
        keepAlive.Release();
        keepAlive := null;
      }
      if keepAliveWeak.strong > 0 {
        keepAliveWeak.parent := null;
      }
    }
  }

  /** The handle a call passes on to the host, by its id; a null handle passes none. */
  function IdOf(h: ObjectJS?): (r: Option<nat>)
    ensures r.Some? <==> h != null
    ensures h != null ==> r.value == h.id
  {
    if h == null then None else Some(h.id)
  }

  /** A lost context makes every handle foreign, hence unusable. */
  lemma LostContextHasNoUsableHandle(context: ClientWebGLContext, h: ObjectJS)
    requires h.Valid()
    ensures context.IsContextLost() ==> !h.IsForContext(context) && !h.IsUsable(context)
  {
  }

  /** The handle kinds that raise INVALID_VALUE on deleted use are exactly those whose deletion follows a token. */
  lemma DeletedErrorFollowsToken(h: ObjectJS)
    requires h.Valid()
    ensures ErrorOnDeleted(h.kind) == INVALID_VALUE <==> h.keepAliveWeak != null
  {
  }

  /** An invalid use recorded by ValidateUsable: the handle's id and the argument's name. */
  datatype InvalidUse = InvalidUse(objectId: nat, argName: string)

  /** An error enqueued for the page, attributed to the outermost API call. */
  datatype QueuedError = QueuedError(code: nat, funcName: string, reason: Reason)

  /** A call handed on to the host-side implementation. */
  datatype HostCall =
    | BindBufferRangeImpl(bind: BindRange)
    | FramebufferAttach(attach: Attach)
    | DrawElementsInstanced(draw: DrawElements)

  /** Names the outermost API call on the context while it lasts. */
  class FuncScope {
    const webgl: ClientWebGLContext
    const keepNotLostOrNull: NotLostData?
    const funcName: string

    /** Entering an API call: installs itself only when no outer scope is active. */
    constructor(webgl: ClientWebGLContext, funcName: string)
      requires webgl.Valid()
      modifies webgl`funcScope, webgl`scopes
      ensures webgl.Valid()
      ensures this.webgl == webgl && this.funcName == funcName && keepNotLostOrNull == webgl.notLost
      ensures webgl.scopes == old(webgl.scopes) + [this]
      ensures webgl.funcScope == (if old(webgl.funcScope) == null then this else old(webgl.funcScope))
    {
      this.webgl := webgl;
      keepNotLostOrNull := webgl.notLost;
      this.funcName := funcName;
      new;
      if webgl.funcScope == null {
        webgl.funcScope := this;
      }
      webgl.scopes := webgl.scopes + [this];
    }

    /** Leaving the API call (scopes end in reverse order): only the outermost scope clears itself. */
    method End()
      requires webgl.Valid() && webgl.scopes != [] && webgl.scopes[|webgl.scopes| - 1] == this
      modifies webgl`funcScope, webgl`scopes
      ensures webgl.Valid()
      ensures webgl.scopes == old(webgl.scopes)[..|old(webgl.scopes)| - 1]
      ensures webgl.funcScope == (if old(webgl.funcScope) == this then null else old(webgl.funcScope))
      ensures webgl.funcScope == null <==> |old(webgl.scopes)| == 1
    {
      var n := |webgl.scopes|;
      if this == webgl.funcScope {
        webgl.funcScope := null;
      }
      webgl.scopes := webgl.scopes[..n - 1];
    }
  }

  class ClientWebGLContext {
    var notLost: NotLostData?
    var lastId: nat
    ghost var issuedIds: set<nat>
    var completedSyncId: nat
    var autoFlushPending: bool
    /** Deferred-flush tasks dispatched and not yet run. */
    var queuedFlushTasks: nat
    /** The flushGl argument of every Flush a deferred task made. */
    var flushes: seq<bool>
    /** How many times MarkCanvasDirty was called. */
    var canvasDirtyMarks: nat
    var funcScope: FuncScope?
    /** The active scopes, outermost first. */
    ghost var scopes: seq<FuncScope>
    var errors: seq<QueuedError>
    var invalidUses: seq<InvalidUse>
    var hostCalls: seq<HostCall>

    ghost predicate Valid()
      reads this
    {
      && (forall i :: i in issuedIds ==> 1 <= i <= lastId)
      && (autoFlushPending ==> queuedFlushTasks >= 1)
      && funcScope == (if scopes == [] then null else scopes[0])
      && (forall i, j :: 0 <= i < j < |scopes| ==> scopes[i] != scopes[j])
    }

    /** The state the field initialisers give: lost, no id issued, nothing pending, no scope. */
    constructor()
      ensures Valid()
      ensures notLost == null && lastId == 0 && issuedIds == {} && completedSyncId == 0
      ensures !autoFlushPending && queuedFlushTasks == 0 && flushes == [] && canvasDirtyMarks == 0
      ensures funcScope == null && scopes == [] && errors == [] && invalidUses == [] && hostCalls == []
    {
      notLost := null;
      lastId := 0;
      issuedIds := {};
      completedSyncId := 0;
      autoFlushPending := false;
      queuedFlushTasks := 0;
      flushes := [];
      canvasDirtyMarks := 0;
      funcScope := null;
      scopes := [];
      errors := [];
      invalidUses := [];
      hostCalls := [];
    }

    predicate IsContextLost()
      reads this
    {
      notLost == null
    }

    // -------------------------------------------------------------------------
    // Generations

    /** A context loss releases the generation record. */
    method LoseGeneration()
      modifies this`notLost
      ensures notLost == null
    {
      notLost := null;
    }

    /**
     * Creating or restoring the host context installs a new generation
     * record; no handle made before belongs to it.
     */
    method BeginGeneration()
      modifies this`notLost
      ensures notLost != null && fresh(notLost) && notLost.boundDrawFb == null
      ensures forall h: ObjectJS :: old(allocated(h)) ==> !h.IsForContext(this)
    {
      notLost := new NotLostData();
    }

    // -------------------------------------------------------------------------
    // Counters

    /** Ids increase by one per handle and are never handed out twice. */
    method NextId() returns (id: nat)
      requires Valid()
      modifies this`lastId, this`issuedIds
      ensures Valid()
      ensures id == old(lastId) + 1 && lastId == id
      ensures id !in old(issuedIds) && issuedIds == old(issuedIds) + {id}
    {
      lastId := lastId + 1;
      id := lastId;
      issuedIds := issuedIds + {id};
    }

    /** The completed-sync watermark only rises: it becomes the larger of itself and `id`. */
    method OnSyncComplete(id: nat)
      modifies this`completedSyncId
      ensures completedSyncId >= old(completedSyncId) && completedSyncId >= id
      ensures completedSyncId == old(completedSyncId) || completedSyncId == id
    {
      if completedSyncId < id {
        completedSyncId := id;
      }
    }

    // -------------------------------------------------------------------------
    // Error attribution

    /** The name of the outermost active API call, if any. */
    function FuncName(): (r: Option<string>)
      requires Valid()
      reads this
      ensures r.None? <==> scopes == []
      ensures r.Some? ==> r.value == scopes[0].funcName
    {
      if funcScope == null then None else Some(funcScope.funcName)
    }

    /** Queues an error, attributed to the outermost API call (which must be active). */
    method EnqueueError(code: nat, reason: Reason)
      requires Valid() && FuncName().Some?
      modifies this`errors
      ensures errors == old(errors) + [QueuedError(code, FuncName().value, reason)]
    {
      errors := errors + [QueuedError(code, FuncName().value, reason)];
    }

    // -------------------------------------------------------------------------
    // Deferred flush

    /** Dispatches a flush task unless one is already pending: repeated calls coalesce. */
    method AutoEnqueueFlush()
      requires Valid()
      modifies this`autoFlushPending, this`queuedFlushTasks
      ensures Valid()
      ensures autoFlushPending
      ensures queuedFlushTasks == old(queuedFlushTasks) + (if old(autoFlushPending) then 0 else 1)
    {
      if autoFlushPending {
        return;
      }
      autoFlushPending := true;
      queuedFlushTasks := queuedFlushTasks + 1;
    }

    method CancelAutoFlush()
      requires Valid()
      modifies this`autoFlushPending
      ensures Valid() && !autoFlushPending
    {
      autoFlushPending := false;
    }

    /** After a draw: the default framebuffer's canvas is marked dirty, and a flush is scheduled. */
    method AfterDrawCall()
      requires Valid()
      modifies this`canvasDirtyMarks, this`autoFlushPending, this`queuedFlushTasks
      ensures Valid()
      ensures canvasDirtyMarks == old(canvasDirtyMarks)
              + (if notLost != null && notLost.boundDrawFb == null then 1 else 0)
      ensures notLost == null ==> autoFlushPending == old(autoFlushPending) && queuedFlushTasks == old(queuedFlushTasks)
      ensures notLost != null ==>
        autoFlushPending && queuedFlushTasks == old(queuedFlushTasks) + (if old(autoFlushPending) then 0 else 1)
    {
      if notLost == null {
        return;
      }
      if notLost.boundDrawFb == null {
        canvasDirtyMarks := canvasDirtyMarks + 1;
      }
      AutoEnqueueFlush();
    }

    // -------------------------------------------------------------------------
    // Entry points with visible argument checks

    /** The name the queued error of a call to `name` carries: the outermost active call's. */
    function AttributedName(name: string): string
      reads this
    {
      if funcScope == null then name else funcScope.funcName
    }

    /** Records the outcome of a checked call: an error, a host call, or nothing. */
    method Conclude<A>(outcome: Outcome<A>, call: A -> HostCall)
      requires Valid() && FuncName().Some?
      modifies this`errors, this`hostCalls
      ensures errors == old(errors) + (if outcome.Rejected? then
        [QueuedError(outcome.error.code, FuncName().value, outcome.error.reason)] else [])
      ensures hostCalls == old(hostCalls) + (if outcome.Forwarded? then [call(outcome.args)] else [])
    {
      match outcome
      case Ignored =>
      case Rejected(e) => EnqueueError(e.code, e.reason);
      case Forwarded(args) => hostCalls := hostCalls + [call(args)];
    }

    method BindBufferBase(target: GLenum, index: Uint32, buffer: ObjectJS?)
      requires Valid()
      modifies this`funcScope, this`scopes, this`errors, this`hostCalls
      ensures Valid() && funcScope == old(funcScope) && scopes == old(scopes) && errors == old(errors)
      ensures hostCalls == old(hostCalls) +
        (if IsContextLost() then [] else [BindBufferRangeImpl(BindRange(target, index, IdOf(buffer), 0, 0))])
    {
      var scope := new FuncScope(this, "bindBufferBase");
      var outcome := WebGLValidate.BindBufferBase(IsContextLost(), target, index, IdOf(buffer));
      Conclude(outcome, (b: BindRange) => BindBufferRangeImpl(b));
      scope.End();
    }

    method BindBufferRange(target: GLenum, index: Uint32, buffer: ObjectJS?, offset: Int64, size: Int64)
      requires Valid()
      modifies this`funcScope, this`scopes, this`errors, this`hostCalls
      ensures Valid() && funcScope == old(funcScope) && scopes == old(scopes)
      ensures var r := WebGLValidate.BindBufferRange(IsContextLost(), target, index, IdOf(buffer), offset, size);
        && errors == old(errors) +
             (if r.Rejected? then [QueuedError(INVALID_VALUE, old(AttributedName("bindBufferRange")), r.error.reason)] else [])
        && hostCalls == old(hostCalls) + (if r.Forwarded? then [BindBufferRangeImpl(r.args)] else [])
    {
      var scope := new FuncScope(this, "bindBufferRange");
      var outcome := WebGLValidate.BindBufferRange(IsContextLost(), target, index, IdOf(buffer), offset, size);
      Conclude(outcome, (b: BindRange) => BindBufferRangeImpl(b));
      scope.End();
    }

    method FramebufferTextureMultiview(target: GLenum, attachSlot: GLenum, tex: ObjectJS?,
                                       mipLevel: Int32, zLayerBase: Int32, numViewLayers: Int32)
      requires Valid()
      modifies this`funcScope, this`scopes, this`errors, this`hostCalls
      ensures Valid() && funcScope == old(funcScope) && scopes == old(scopes)
      ensures var r := WebGLValidate.FramebufferTextureMultiview(
                 IsContextLost(), target, attachSlot, IdOf(tex), mipLevel, zLayerBase, numViewLayers);
        && errors == old(errors) +
             (if r.Rejected? then [QueuedError(INVALID_VALUE, old(AttributedName("framebufferTextureMultiview")), TooFewViewLayers)] else [])
        && hostCalls == old(hostCalls) + (if r.Forwarded? then [FramebufferAttach(r.args)] else [])
    {
      var scope := new FuncScope(this, "framebufferTextureMultiview");
      var outcome := WebGLValidate.FramebufferTextureMultiview(
        IsContextLost(), target, attachSlot, IdOf(tex), mipLevel, zLayerBase, numViewLayers);
      Conclude(outcome, (a: Attach) => FramebufferAttach(a));
      scope.End();
    }

    method DrawRangeElements(mode: GLenum, start: Uint32, end: Uint32, count: Int32, elemType: GLenum, byteOffset: Int64)
      requires Valid()
      modifies this`funcScope, this`scopes, this`errors, this`hostCalls
      ensures Valid() && funcScope == old(funcScope) && scopes == old(scopes)
      ensures errors == old(errors) +
        (if end < start then [QueuedError(INVALID_VALUE, old(AttributedName("drawRangeElements")), EndBeforeStart)] else [])
      ensures hostCalls == old(hostCalls) +
        (if end < start then [] else [DrawElementsInstanced(DrawElements(mode, count, elemType, byteOffset, 1))])
    {
      var scope := new FuncScope(this, "drawRangeElements");
      var outcome := WebGLValidate.DrawRangeElements(mode, start, end, count, elemType, byteOffset);
      Conclude(outcome, (d: DrawElements) => DrawElementsInstanced(d));
      scope.End();
    }
  }

  /**
   * The deferred-flush task: it holds only a weak reference (null once the
   * context is gone), does nothing if the pending flag was cleared meanwhile,
   * and otherwise clears the flag before flushing when the auto-flush
   * preference allows it.
   */
  method DeferredFlush(weak: ClientWebGLContext?, autoFlushPref: bool, autoFlushGlPref: bool)
    requires weak != null ==> weak.Valid() && weak.queuedFlushTasks >= 1
    modifies weak
    ensures weak != null ==> weak.Valid() && !weak.autoFlushPending
    ensures weak != null ==> weak.queuedFlushTasks == old(weak.queuedFlushTasks) - 1
    ensures weak != null ==>
      weak.flushes == old(weak.flushes) + (if old(weak.autoFlushPending) && autoFlushPref then [autoFlushGlPref] else [])
    ensures weak != null ==> unchanged(weak`notLost, weak`lastId, weak`issuedIds, weak`completedSyncId,
                                       weak`canvasDirtyMarks, weak`funcScope, weak`scopes, weak`errors,
                                       weak`invalidUses, weak`hostCalls)
  {
    if weak == null {
      return;
    }
    weak.queuedFlushTasks := weak.queuedFlushTasks - 1;
    if !weak.autoFlushPending {
      return;
    }
    weak.autoFlushPending := false;
    if !autoFlushPref {
      return;
    }
    weak.flushes := weak.flushes + [autoFlushGlPref];
  }

  /** An attachment slot of a framebuffer handle. */
  datatype Attachment = Attachment(rb: ObjectJS?, tex: ObjectJS?)

  class WebGLFramebufferJS {
    var attachments: map<GLenum, Attachment>

    constructor()
      ensures attachments == map[]
    {
      attachments := map[];
    }

    /**
     * Looks a slot up; on a miss the color attachments are ensured and the
     * slot is looked up once more. Ensuring adds the slots of `colors` that
     * are missing, with the entries `colors` gives them, and keeps every
     * slot already present as it was.
     */
    method GetAttachment(slot: GLenum, colors: map<GLenum, Attachment>) returns (r: Option<Attachment>)
      modifies this`attachments
      ensures slot in old(attachments) ==> attachments == old(attachments) && r == Some(old(attachments)[slot])
      ensures slot !in old(attachments) ==> attachments == colors + old(attachments)
      ensures forall k :: k in old(attachments) ==> k in attachments && attachments[k] == old(attachments)[k]
      ensures slot !in old(attachments) ==> (r.Some? <==> slot in colors)
      ensures r.Some? ==> slot in attachments && r.value == attachments[slot]
    {
      if slot in attachments {
        return Some(attachments[slot]);
      }
      attachments := colors + attachments;
      if slot in attachments {
        return Some(attachments[slot]);
      }
      return None;
    }
  }

  // ---------------------------------------------------------------------------
  // Uses of the context

  /** A handle made before a loss stays unusable after the loss and after any later restore. */
  method StaleAfterLoss(context: ClientWebGLContext, h: ObjectJS)
    requires h.Valid() && h.IsForContext(context)
    modifies context`notLost
    ensures context.notLost != null && !h.IsForContext(context)
  {
    context.LoseGeneration();
    assert !h.IsUsable(context);
    context.BeginGeneration();
  }

  /** Nested calls: errors raised inside are attributed to the outer call, and the scope clears after it. */
  method NestedCallsAttributeOutermost(context: ClientWebGLContext)
    requires context.Valid() && context.scopes == []
    modifies context`funcScope, context`scopes, context`errors
    ensures context.Valid() && context.FuncName() == None
    ensures context.errors == old(context.errors) + [QueuedError(INVALID_VALUE, "outer", EndBeforeStart)]
  {
    var outer := new FuncScope(context, "outer");
    var inner := new FuncScope(context, "inner");
    context.EnqueueError(INVALID_VALUE, EndBeforeStart);
    inner.End();
    assert context.FuncName() == Some("outer");
    outer.End();
  }

  /** Two draws in a row dispatch a single flush task, and that task flushes once. */
  method DrawsCoalesceFlushes(context: ClientWebGLContext)
    requires context.Valid() && context.notLost != null && !context.autoFlushPending
    modifies context
    ensures context.Valid() && !context.autoFlushPending
    ensures context.queuedFlushTasks == old(context.queuedFlushTasks)
    ensures context.flushes == old(context.flushes) + [false]
  {
    context.AfterDrawCall();
    context.AfterDrawCall();
    assert context.queuedFlushTasks == old(context.queuedFlushTasks) + 1;
    DeferredFlush(context, true, false);
  }

  /**
   * A shader attached to a program shares its token with the attachment, so
   * destroying the shader handle keeps the shader alive for the link and
   * clears the token's back-pointer; releasing the attachment then deletes it.
   */
  method AttachedShaderOutlivesHandle(context: ClientWebGLContext) returns (aliveAfterHandle: bool, deletedAfterDetach: bool)
    requires context.Valid()
    modifies context`lastId, context`issuedIds
    ensures context.Valid()
    ensures aliveAfterHandle && deletedAfterDetach
  {
    var shader := new ObjectJS(context, Shader);
    var token := shader.keepAlive;
    token.Share();
    shader.Finalize();
    assert token.strong == 1 && token.parent == null;
    aliveAfterHandle := !shader.IsDeleted();
    token.Release();
    deletedAfterDetach := shader.IsDeleted();
  }
}
