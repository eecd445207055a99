/**
 Properties of what the blitter records: how many barriers and copies, in which order,
 and what layout each image subresource is in when the copy executes and afterwards.
 Also a recording session of several blits sharing one shader cache.
 */
module Trace {
  import opened VkTypes
  import opened Transition
  import opened ShaderCache
  import opened Blitter

  function CopyCount(cs: seq<Event>): nat {
    if |cs| == 0 then 0 else (if cs[0].IsCopy() then 1 else 0) + CopyCount(cs[1..])
  }

  function BarrierCount(cs: seq<Event>): nat {
    if |cs| == 0 then 0 else (if cs[0].Barrier? then 1 else 0) + BarrierCount(cs[1..])
  }

  lemma {:induction false} CountsAppend(a: seq<Event>, b: seq<Event>)
    ensures CopyCount(a + b) == CopyCount(a) + CopyCount(b)
    ensures BarrierCount(a + b) == BarrierCount(a) + BarrierCount(b)
  {
    if |a| == 0 {
      assert a + b == b;
    } else {
      assert (a + b)[1..] == a[1..] + b;
      CountsAppend(a[1..], b);
    }
  }

  lemma CountsOne(e: Event)
    ensures CopyCount([e]) == (if e.IsCopy() then 1 else 0)
    ensures BarrierCount([e]) == (if e.Barrier? then 1 else 0)
  {
    assert [e][1..] == [];
  }

  // ---------------------------------------------------------------------------
  // Counts and order of one blit

  /**
   Every recorded blit holds exactly one copy command and three or four barriers; the
   source's exit barrier is missing exactly for a texture-less source on a headless surface.
   */
  lemma BlitFastCounts(ctx: Context, aspect: Aspect, filter: Filter, srcTarget: RenderTarget,
                       src: Attachment, dst: Attachment, srcRect: RectPair, dstRect: RectPair)
    requires BlitFast(ctx, aspect, filter, srcTarget, src, dst, srcRect, dstRect).Recorded?
    ensures var cs := BlitFast(ctx, aspect, filter, srcTarget, src, dst, srcRect, dstRect).commands;
      && CopyCount(cs) == 1
      && (BarrierCount(cs) == 3 || BarrierCount(cs) == 4)
      && (BarrierCount(cs) == 3 <==> src.texture.None? && ctx.headless)
  {
    var cs := BlitFast(ctx, aspect, filter, srcTarget, src, dst, srcRect, dstRect).commands;
    var head := [cs[0]] + [cs[1]] + [cs[2]];
    CountsOne(cs[0]);
    CountsOne(cs[1]);
    CountsOne(cs[2]);
    CountsAppend([cs[0]], [cs[1]]);
    CountsAppend([cs[0]] + [cs[1]], [cs[2]]);
    if |cs| == 5 {
      assert cs == head + [cs[3]] + [cs[4]];
      CountsOne(cs[3]);
      CountsOne(cs[4]);
      CountsAppend(head, [cs[3]]);
      CountsAppend(head + [cs[3]], [cs[4]]);
    } else {
      assert cs == head + [cs[3]];
      CountsOne(cs[3]);
      CountsAppend(head, [cs[3]]);
    }
  }

  /** A depth resolve stops after the two entry barriers: no copy has been recorded. */
  lemma DepthResolveRecordsNoCopy(ctx: Context, filter: Filter, srcTarget: RenderTarget,
                                  src: Attachment, dst: Attachment, srcRect: RectPair, dstRect: RectPair)
    requires UsesResolve(src, dst)
    ensures var r := BlitFast(ctx, Depth, filter, srcTarget, src, dst, srcRect, dstRect);
      r.InvariantViolation? && CopyCount(r.recorded) == 0 && BarrierCount(r.recorded) == 2
  {
    var r := BlitFast(ctx, Depth, filter, srcTarget, src, dst, srcRect, dstRect);
    assert r.recorded == [r.recorded[0]] + [r.recorded[1]];
    CountsOne(r.recorded[0]);
    CountsOne(r.recorded[1]);
    CountsAppend([r.recorded[0]], [r.recorded[1]]);
  }

  /**
   The two entry barriers come first, with the fixed transfer-role parameters; the copy is
   the third command and the only one; everything after it is a barrier.
   */
  lemma BlitFastOrder(ctx: Context, aspect: Aspect, filter: Filter, srcTarget: RenderTarget,
                      src: Attachment, dst: Attachment, srcRect: RectPair, dstRect: RectPair)
    requires BlitFast(ctx, aspect, filter, srcTarget, src, dst, srcRect, dstRect).Recorded?
    ensures var cs := BlitFast(ctx, aspect, filter, srcTarget, src, dst, srcRect, dstRect).commands;
      && |cs| >= 4
      && cs[0].Barrier? && cs[1].Barrier?
      && cs[0].transition == LayoutTransition(src.image, Undefined, TransferSrcOptimal,
           SubresourceRange(aspect, src.level, 1, src.layer, 1),
           {BottomOfPipe}, {}, {Transfer}, {TransferRead})
      && cs[1].transition == LayoutTransition(dst.image, Undefined, TransferDstOptimal,
           SubresourceRange(aspect, dst.level, 1, dst.layer, 1),
           {BottomOfPipe}, {}, {Transfer}, {TransferWrite})
      && (forall j :: 0 <= j < |cs| ==> (cs[j].IsCopy() <==> j == 2))
      && (forall j :: 2 < j < |cs| ==> cs[j].Barrier? && cs[j].transition.oldLayout == Undefined)
  {
  }

  /** Every barrier a blit records has valid synchronisation scopes. */
  lemma BlitFastBarriersWellScoped(ctx: Context, aspect: Aspect, filter: Filter, srcTarget: RenderTarget,
                                   src: Attachment, dst: Attachment, srcRect: RectPair, dstRect: RectPair)
    requires BlitFast(ctx, aspect, filter, srcTarget, src, dst, srcRect, dstRect).Recorded?
    ensures var cs := BlitFast(ctx, aspect, filter, srcTarget, src, dst, srcRect, dstRect).commands;
      forall j :: 0 <= j < |cs| && cs[j].Barrier? ==> WellScoped(cs[j].transition)
  {
  }

  /**
   The exit barriers: the source goes back to its texture's layout, else to a colour
   attachment on a surface that is not headless, else it gets none; the destination goes
   to its texture's layout, else the swap chain's. Both use the helper's sync fields.
   */
  lemma BlitFastExitBarriers(ctx: Context, aspect: Aspect, filter: Filter, srcTarget: RenderTarget,
                             src: Attachment, dst: Attachment, srcRect: RectPair, dstRect: RectPair)
    requires BlitFast(ctx, aspect, filter, srcTarget, src, dst, srcRect, dstRect).Recorded?
    ensures var cs := BlitFast(ctx, aspect, filter, srcTarget, src, dst, srcRect, dstRect).commands;
      && (src.texture.Some? ==>
            |cs| == 5 && cs[3].transition.image == src.image
            && cs[3].transition.newLayout == ctx.textureLayout(src.texture.value.usage))
      && (src.texture.None? && !ctx.headless ==>
            |cs| == 5 && cs[3].transition.image == src.image
            && cs[3].transition.newLayout == ColorAttachmentOptimal)
      && (src.texture.None? && ctx.headless ==> |cs| == 4)
      && var last := cs[|cs| - 1].transition;
         && last.image == dst.image
         && last.subresources == SubresourceRange(aspect, dst.level, 1, dst.layer, 1)
         && last.newLayout == (if dst.texture.Some? then ctx.textureLayout(dst.texture.value.usage)
                               else ctx.swapChainLayout)
         && SyncOf(last) == SyncOf(TransitionHelper(last))
  {
  }

  // ---------------------------------------------------------------------------
  // The copy command

  /**
   The copy is a resolve exactly when a multisampled source texture meets a single-sampled
   destination texture, always a blit when either side has no texture, and a blit carries
   the caller's filter.
   */
  lemma CopyDecision(ctx: Context, aspect: Aspect, filter: Filter, srcTarget: RenderTarget,
                     src: Attachment, dst: Attachment, srcRect: RectPair, dstRect: RectPair)
    requires BlitFast(ctx, aspect, filter, srcTarget, src, dst, srcRect, dstRect).Recorded?
    ensures var cs := BlitFast(ctx, aspect, filter, srcTarget, src, dst, srcRect, dstRect).commands;
      && ((exists j :: 0 <= j < |cs| && cs[j].Resolve?) <==>
            src.texture.Some? && src.texture.value.samples > 1
            && dst.texture.Some? && dst.texture.value.samples == 1)
      && ((exists j :: 0 <= j < |cs| && cs[j].Resolve?) ==> aspect == Color)
      && (src.texture.None? || dst.texture.None? ==> cs[2].Blit?)
      && (forall j :: 0 <= j < |cs| && cs[j].Blit? ==> cs[j].filter == filter)
  {
  }

  /**
   Copy regions cover one mip level and one array layer at each attachment's level and
   layer; a blit keeps both rectangles, a resolve takes the first corner of each and the
   source target's extent with depth 1.
   */
  lemma CopyRegions(ctx: Context, aspect: Aspect, filter: Filter, srcTarget: RenderTarget,
                    src: Attachment, dst: Attachment, srcRect: RectPair, dstRect: RectPair)
    requires BlitFast(ctx, aspect, filter, srcTarget, src, dst, srcRect, dstRect).Recorded?
    ensures var copy := BlitFast(ctx, aspect, filter, srcTarget, src, dst, srcRect, dstRect).commands[2];
      && (copy.Blit? ==>
            && copy.blitRegion.srcSubresource == SubresourceLayers(aspect, src.level, src.layer, 1)
            && copy.blitRegion.dstSubresource == SubresourceLayers(aspect, dst.level, dst.layer, 1)
            && copy.blitRegion.srcOffsets == srcRect
            && copy.blitRegion.dstOffsets == dstRect)
      && (copy.Resolve? ==>
            && copy.resolveRegion.srcSubresource == SubresourceLayers(aspect, src.level, src.layer, 1)
            && copy.resolveRegion.dstSubresource == SubresourceLayers(aspect, dst.level, dst.layer, 1)
            && copy.resolveRegion.srcOffset == srcRect.lo
            && copy.resolveRegion.dstOffset == dstRect.lo
            && copy.resolveRegion.extent == Extent3D(srcTarget.extent.width, srcTarget.extent.height, 1))
  {
  }

  // ---------------------------------------------------------------------------
  // Layout tracking

  /** One aspect of one mip level of one array layer of one image. */
  datatype Subresource = Subresource(image: ImageHandle, aspect: Aspect, level: nat, layer: nat)

  /** The layout every subresource is in at some point of the command stream. */
  type LayoutState = Subresource -> ImageLayout

  predicate InRange(t: LayoutTransition, x: Subresource) {
    && x.image == t.image
    && x.aspect == t.subresources.aspectMask
    && t.subresources.baseMipLevel <= x.level < t.subresources.baseMipLevel + t.subresources.levelCount
    && t.subresources.baseArrayLayer <= x.layer < t.subresources.baseArrayLayer + t.subresources.layerCount
  }

  predicate InLayers(image: ImageHandle, l: SubresourceLayers, x: Subresource) {
    && x.image == image
    && x.aspect == l.aspectMask
    && x.level == l.mipLevel
    && l.baseArrayLayer <= x.layer < l.baseArrayLayer + l.layerCount
  }

  /** A barrier moves the subresources it covers to its new layout; copies move nothing. */
  function Step(s: LayoutState, e: Event): LayoutState {
    match e
    case Barrier(t) => (x: Subresource) => if InRange(t, x) then t.newLayout else s(x)
    case _ => s
  }

  function SourceLayers(e: Event): SubresourceLayers
    requires e.IsCopy()
  {
    if e.Blit? then e.blitRegion.srcSubresource else e.resolveRegion.srcSubresource
  }

  function DestinationLayers(e: Event): SubresourceLayers
    requires e.IsCopy()
  {
    if e.Blit? then e.blitRegion.dstSubresource else e.resolveRegion.dstSubresource
  }

  /** A copy finds every subresource it touches in the layout it declares for it. */
  ghost predicate CopyReady(s: LayoutState, e: Event) {
    e.IsCopy() ==>
      && (forall x :: InLayers(e.srcImage, SourceLayers(e), x) ==> s(x) == e.srcLayout)
      && (forall x :: InLayers(e.dstImage, DestinationLayers(e), x) ==> s(x) == e.dstLayout)
  }

  function Replay(s: LayoutState, cs: seq<Event>): LayoutState {
    if |cs| == 0 then s else Replay(Step(s, cs[0]), cs[1..])
  }

  /** Every copy of `cs`, replayed from `s`, finds its images in the layouts it declares. */
  ghost predicate CopiesReady(s: LayoutState, cs: seq<Event>) {
    |cs| == 0 || (CopyReady(s, cs[0]) && CopiesReady(Step(s, cs[0]), cs[1..]))
  }

  /** Replaying a non-empty stream is replaying its tail from the first step. */
  lemma ReplayFirst(s: LayoutState, cs: seq<Event>)
    requires |cs| > 0
    ensures Replay(s, cs) == Replay(Step(s, cs[0]), cs[1..])
    ensures CopiesReady(s, cs) <==> CopyReady(s, cs[0]) && CopiesReady(Step(s, cs[0]), cs[1..])
  {
  }

  function SubresourceOf(aspect: Aspect, a: Attachment): Subresource {
    Subresource(a.image, aspect, a.level, a.layer)
  }

  /** A barrier on one attachment's single range moves that subresource and nothing else. */
  lemma SingleBarrierStep(s: LayoutState, t: LayoutTransition, aspect: Aspect, a: Attachment)
    requires t.image == a.image && t.subresources == SingleRange(aspect, a)
    ensures forall x :: Step(s, Barrier(t))(x)
                     == (if x == SubresourceOf(aspect, a) then t.newLayout else s(x))
  {
    forall x
      ensures Step(s, Barrier(t))(x) == (if x == SubresourceOf(aspect, a) then t.newLayout else s(x))
    {
      assert InRange(t, x) <==> x == SubresourceOf(aspect, a);
    }
  }

  /** The layout the source is left in: its exit layout, else still a transfer source. */
  function SourceFinalLayout(ctx: Context, src: Attachment): ImageLayout {
    match SourceExitLayout(ctx, src)
    case Some(l) => l
    case None => TransferSrcOptimal
  }

  /**
   When source and destination are different subresources, whatever their layouts were
   before, the copy finds the source in TRANSFER_SRC_OPTIMAL and the destination in
   TRANSFER_DST_OPTIMAL; afterwards each is in its exit layout and no other subresource
   has changed.
   */
  lemma BlitFastLayouts(ctx: Context, aspect: Aspect, filter: Filter, srcTarget: RenderTarget,
                        src: Attachment, dst: Attachment, srcRect: RectPair, dstRect: RectPair,
                        before: LayoutState)
    requires BlitFast(ctx, aspect, filter, srcTarget, src, dst, srcRect, dstRect).Recorded?
    requires SubresourceOf(aspect, src) != SubresourceOf(aspect, dst)
    ensures var cs := BlitFast(ctx, aspect, filter, srcTarget, src, dst, srcRect, dstRect).commands;
      && CopiesReady(before, cs)
      && forall x :: Replay(before, cs)(x) ==
           (if x == SubresourceOf(aspect, dst) then DestinationExitLayout(ctx, dst)
            else if x == SubresourceOf(aspect, src) then SourceFinalLayout(ctx, src)
            else before(x))
  {
    var cs := BlitFast(ctx, aspect, filter, srcTarget, src, dst, srcRect, dstRect).commands;
    var S, D := SubresourceOf(aspect, src), SubresourceOf(aspect, dst);
    var s1 := Step(before, cs[0]);
    SingleBarrierStep(before, cs[0].transition, aspect, src);
    var s2 := Step(s1, cs[1]);
    SingleBarrierStep(s1, cs[1].transition, aspect, dst);
    assert s2(S) == TransferSrcOptimal && s2(D) == TransferDstOptimal;
    var copy := cs[2];
    assert forall x :: InLayers(copy.srcImage, SourceLayers(copy), x) ==> x == S;
    assert forall x :: InLayers(copy.dstImage, DestinationLayers(copy), x) ==> x == D;
    assert CopyReady(s2, copy);
    ReplayFirst(before, cs);
    ReplayFirst(s1, cs[1..]);
    ReplayFirst(s2, cs[2..]);
    assert Step(s2, copy) == s2;
    var s4 := Step(s2, cs[3]);
    ReplayFirst(s2, cs[3..]);
    if |cs| == 5 {
      SingleBarrierStep(s2, cs[3].transition, aspect, src);
      var s5 := Step(s4, cs[4]);
      SingleBarrierStep(s4, cs[4].transition, aspect, dst);
      ReplayFirst(s4, cs[4..]);
      assert cs[5..] == [];
      assert Replay(before, cs) == s5;
    } else {
      SingleBarrierStep(s2, cs[3].transition, aspect, dst);
      assert cs[4..] == [];
      assert Replay(before, cs) == s4;
    }
  }

  /**
   When source and destination are the same subresource the destination entry barrier
   takes it out of TRANSFER_SRC_OPTIMAL before the copy reads it.
   */
  lemma SameSubresourceNotReady(ctx: Context, aspect: Aspect, filter: Filter, srcTarget: RenderTarget,
                                src: Attachment, dst: Attachment, srcRect: RectPair, dstRect: RectPair,
                                before: LayoutState)
    requires BlitFast(ctx, aspect, filter, srcTarget, src, dst, srcRect, dstRect).Recorded?
    requires SubresourceOf(aspect, src) == SubresourceOf(aspect, dst)
    ensures !CopiesReady(before, BlitFast(ctx, aspect, filter, srcTarget, src, dst, srcRect, dstRect).commands)
  {
    var cs := BlitFast(ctx, aspect, filter, srcTarget, src, dst, srcRect, dstRect).commands;
    var x := SubresourceOf(aspect, src);
    var s1 := Step(before, cs[0]);
    var s2 := Step(s1, cs[1]);
    SingleBarrierStep(s1, cs[1].transition, aspect, dst);
    assert InLayers(cs[2].srcImage, SourceLayers(cs[2]), x);
    assert s2(x) == TransferDstOptimal;
    assert !CopyReady(s2, cs[2]);
    ReplayFirst(before, cs);
    ReplayFirst(s1, cs[1..]);
    ReplayFirst(s2, cs[2..]);
  }

  // ---------------------------------------------------------------------------
  // A recording session: several blits on one blitter

  datatype Request = ColorBlit(args: BlitArgs) | DepthBlit(args: BlitArgs)

  function Dispatch(cache: Cache, ctx: Context, req: Request): (o: BlitOutcome)
    requires cache.vertex != NullModule || cache.hasDevice
    ensures o.cache == LazyInit(cache)
  {
    match req
    case ColorBlit(args) => BlitColor(cache, ctx, args)
    case DepthBlit(args) => BlitDepth(cache, ctx, args)
  }

  /** The cache and the command stream after a sequence of requests; a violation halts. */
  datatype Session = Session(cache: Cache, commands: seq<Event>, halted: bool)

  function RecordAll(cache: Cache, ctx: Context, reqs: seq<Request>): Session
    requires cache.vertex != NullModule || cache.hasDevice
    decreases |reqs|
  {
    if |reqs| == 0 then Session(cache, [], false)
    else
      var o := Dispatch(cache, ctx, reqs[0]);
      match o.result
      case InvariantViolation(recorded) => Session(o.cache, recorded, true)
      case Recorded(cs) =>
        var rest := RecordAll(o.cache, ctx, reqs[1..]);
        Session(rest.cache, cs + rest.commands, rest.halted)
  }

  /**
   However many blits a session records, the shader modules are created once: two
   creations if the cache started empty and at least one blit ran, none otherwise. The
   cache stays consistent, and a session that did not halt holds one copy per request.
   */
  lemma {:induction false} SessionCreatesModulesOnce(cache: Cache, ctx: Context, reqs: seq<Request>)
    requires Consistent(cache)
    requires cache.vertex != NullModule || cache.hasDevice
    ensures var s := RecordAll(cache, ctx, reqs);
      && Consistent(s.cache)
      && CreateCount(s.cache.calls)
           == CreateCount(cache.calls) + (if cache.vertex == NullModule && |reqs| > 0 then 2 else 0)
      && DestroyCount(s.cache.calls) == DestroyCount(cache.calls)
      && (!s.halted ==> CopyCount(s.commands) == |reqs|)
    decreases |reqs|
  {
    if |reqs| > 0 {
      var o := Dispatch(cache, ctx, reqs[0]);
      LazyInitPreservesConsistency(cache);
      LazyInitCreatesOnce(cache);
      LazyInitIdempotent(cache);
      match o.result
      case InvariantViolation(_) =>
      case Recorded(cs) =>
        var req := reqs[0];
        var src := if req.ColorBlit? then req.args.srcTarget.color(req.args.targetIndex)
                   else req.args.srcTarget.depth;
        var dst := if req.ColorBlit? then req.args.dstTarget.color(0) else req.args.dstTarget.depth;
        BlitFastCounts(ctx, if req.ColorBlit? then Color else Depth, req.args.filter,
                       req.args.srcTarget, src, dst, req.args.srcRect, req.args.dstRect);
        SessionCreatesModulesOnce(o.cache, ctx, reqs[1..]);
        CountsAppend(cs, RecordAll(o.cache, ctx, reqs[1..]).commands);
    }
  }
}
