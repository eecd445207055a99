/**
 The blit dispatcher: resolve the two attachments, record two entry barriers, one copy
 command (a resolve or a filtered blit), then the exit barriers that hand each image back
 to its working layout. Recorded commands are returned as a trace of events instead of
 being written into a Vulkan command buffer.
 */
module Blitter {
  import opened VkTypes
  import opened Transition
  import opened ShaderCache

  /** Texture usage flags; their meaning is only ever read through `Context.textureLayout`. */
  type UsageFlags = nat

  /** The parts of a texture the blitter reads. */
  datatype Texture = Texture(samples: nat, usage: UsageFlags)

  /** One attachment of a render target; the default render target has no texture. */
  datatype Attachment = Attachment(
    image: ImageHandle,
    level: nat,
    layer: nat,
    texture: Option<Texture>)

  /** The render-target accessors the blitter calls: colour lookup, depth, extent. */
  datatype RenderTarget = RenderTarget(
    color: nat -> Attachment,
    depth: Attachment,
    extent: Extent2D)

  /** `BlitArgs` */
  datatype BlitArgs = BlitArgs(
    srcTarget: RenderTarget,
    dstTarget: RenderTarget,
    targetIndex: nat,
    srcRect: RectPair,
    dstRect: RectPair,
    filter: Filter)

  /**
   The state the blitter reads from its Vulkan context: whether the current surface is
   headless, the layout of the current swap-chain attachment, and the backend's mapping
   from texture usage to working layout.
   */
  datatype Context = Context(
    headless: bool,
    swapChainLayout: ImageLayout,
    textureLayout: UsageFlags -> ImageLayout)

  /** One command recorded into the command buffer. */
  datatype Event =
    | Barrier(transition: LayoutTransition)
    | Resolve(srcImage: ImageHandle, srcLayout: ImageLayout,
              dstImage: ImageHandle, dstLayout: ImageLayout, resolveRegion: ImageResolve)
    | Blit(srcImage: ImageHandle, srcLayout: ImageLayout,
           dstImage: ImageHandle, dstLayout: ImageLayout, blitRegion: ImageBlit, filter: Filter)
  {
    predicate IsCopy() { Resolve? || Blit? }
  }

  /**
   What a blit leaves in the command buffer. A resolve of depth content breaks an
   invariant of the program after the two entry barriers have been recorded.
   */
  datatype BlitResult =
    | Recorded(commands: seq<Event>)
    | InvariantViolation(recorded: seq<Event>)

  /** The result of a public entry point: the shader cache after `lazyInit`, and the blit. */
  datatype BlitOutcome = BlitOutcome(cache: Cache, result: BlitResult)

  /** The decision rule between a resolve and a blit. */
  predicate UsesResolve(src: Attachment, dst: Attachment) {
    && src.texture.Some? && src.texture.value.samples > 1
    && dst.texture.Some? && dst.texture.value.samples == 1
  }

  /** One mip level and one array layer, for a copy region. */
  function SingleLayer(aspect: Aspect, a: Attachment): SubresourceLayers {
    SubresourceLayers(aspect, a.level, a.layer, 1)
  }

  /** One mip level and one array layer, for a barrier. */
  function SingleRange(aspect: Aspect, a: Attachment): SubresourceRange {
    SubresourceRange(aspect, a.level, 1, a.layer, 1)
  }

  /** Entry barrier for the source: prior contents in any layout, then transfer reads. */
  function SourceEntry(aspect: Aspect, src: Attachment): LayoutTransition {
    LayoutTransition(src.image, Undefined, TransferSrcOptimal, SingleRange(aspect, src),
                     {BottomOfPipe}, {}, {Transfer}, {TransferRead})
  }

  /** Entry barrier for the destination: prior contents in any layout, then transfer writes. */
  function DestinationEntry(aspect: Aspect, dst: Attachment): LayoutTransition {
    LayoutTransition(dst.image, Undefined, TransferDstOptimal, SingleRange(aspect, dst),
                     {BottomOfPipe}, {}, {Transfer}, {TransferWrite})
  }

  /** An exit transition before the helper fills in its sync fields (left at zero). */
  function ExitTransition(aspect: Aspect, a: Attachment, newLayout: ImageLayout): LayoutTransition {
    TransitionHelper(LayoutTransition(a.image, Undefined, newLayout, SingleRange(aspect, a), {}, {}, {}, {}))
  }

  /**
   The layout the source goes back to: its texture's working layout, else a colour
   attachment when the surface is not headless, else none (no exit barrier).
   */
  function SourceExitLayout(ctx: Context, src: Attachment): Option<ImageLayout> {
    if src.texture.Some? then Some(ctx.textureLayout(src.texture.value.usage))
    else if !ctx.headless then Some(ColorAttachmentOptimal)
    else None
  }

  /** The layout the destination goes back to: its texture's, else the swap chain's. */
  function DestinationExitLayout(ctx: Context, dst: Attachment): ImageLayout {
    if dst.texture.Some? then ctx.textureLayout(dst.texture.value.usage)
    else ctx.swapChainLayout
  }

  function ResolveRegion(aspect: Aspect, srcExtent: Extent2D, src: Attachment, dst: Attachment,
                         srcRect: RectPair, dstRect: RectPair): ImageResolve {
    ImageResolve(SingleLayer(aspect, src), srcRect.lo, SingleLayer(aspect, dst), dstRect.lo,
                 Extent3D(srcExtent.width, srcExtent.height, 1))
  }

  function BlitRegion(aspect: Aspect, src: Attachment, dst: Attachment,
                      srcRect: RectPair, dstRect: RectPair): ImageBlit {
    ImageBlit(SingleLayer(aspect, src), srcRect, SingleLayer(aspect, dst), dstRect)
  }

  /** The single copy command between the entry and the exit barriers. */
  function CopyCommand(aspect: Aspect, filter: Filter, srcExtent: Extent2D, src: Attachment,
                       dst: Attachment, srcRect: RectPair, dstRect: RectPair): (e: Event)
    ensures e.IsCopy()
    ensures e.srcImage == src.image && e.srcLayout == TransferSrcOptimal
    ensures e.dstImage == dst.image && e.dstLayout == TransferDstOptimal
    ensures e.Resolve? <==> UsesResolve(src, dst)
    ensures e.Blit? ==> e.filter == filter
  {
    if UsesResolve(src, dst) then
      Resolve(src.image, TransferSrcOptimal, dst.image, TransferDstOptimal,
              ResolveRegion(aspect, srcExtent, src, dst, srcRect, dstRect))
    else
      Blit(src.image, TransferSrcOptimal, dst.image, TransferDstOptimal,
           BlitRegion(aspect, src, dst, srcRect, dstRect), filter)
  }

  /** `blitFast` */
  function BlitFast(ctx: Context, aspect: Aspect, filter: Filter, srcTarget: RenderTarget,
                    src: Attachment, dst: Attachment, srcRect: RectPair, dstRect: RectPair): (r: BlitResult)
    // a depth resolve is the only failure, and it strikes after the entry barriers
    ensures r.InvariantViolation? <==> aspect == Depth && UsesResolve(src, dst)
    ensures r.InvariantViolation? ==>
      r.recorded == [Barrier(SourceEntry(aspect, src)), Barrier(DestinationEntry(aspect, dst))]
    // otherwise: entry barriers, the copy, the source exit if any, the destination exit
    ensures r.Recorded? ==>
      && |r.commands| == (if SourceExitLayout(ctx, src).Some? then 5 else 4)
      && r.commands[0] == Barrier(SourceEntry(aspect, src))
      && r.commands[1] == Barrier(DestinationEntry(aspect, dst))
      && r.commands[2] == CopyCommand(aspect, filter, srcTarget.extent, src, dst, srcRect, dstRect)
      && (SourceExitLayout(ctx, src).Some? ==>
            r.commands[3] == Barrier(ExitTransition(aspect, src, SourceExitLayout(ctx, src).value)))
      && r.commands[|r.commands| - 1]
           == Barrier(ExitTransition(aspect, dst, DestinationExitLayout(ctx, dst)))
  {
    var entry := [Barrier(SourceEntry(aspect, src)), Barrier(DestinationEntry(aspect, dst))];
    if UsesResolve(src, dst) && aspect == Depth then
      InvariantViolation(entry)
    else
      var copy := CopyCommand(aspect, filter, srcTarget.extent, src, dst, srcRect, dstRect);
      var srcExit := match SourceExitLayout(ctx, src)
        case Some(layout) => [Barrier(ExitTransition(aspect, src, layout))]
        case None => [];
      var dstExit := [Barrier(ExitTransition(aspect, dst, DestinationExitLayout(ctx, dst)))];
      Recorded(entry + [copy] + srcExit + dstExit)
  }

  /** `blitColor`: colour attachment `targetIndex` of the source to colour 0 of the destination. */
  function BlitColor(cache: Cache, ctx: Context, args: BlitArgs): (r: BlitOutcome)
    requires cache.vertex != NullModule || cache.hasDevice
    ensures r.cache == LazyInit(cache)
    ensures r.result == BlitFast(ctx, Color, args.filter, args.srcTarget,
                                 args.srcTarget.color(args.targetIndex), args.dstTarget.color(0),
                                 args.srcRect, args.dstRect)
    ensures r.result.Recorded? && |r.result.commands| >= 4
    ensures r.result.commands[2].IsCopy()
    ensures r.result.commands[2].Resolve?
        <==> UsesResolve(args.srcTarget.color(args.targetIndex), args.dstTarget.color(0))
  {
    var c := LazyInit(cache);
    var src := args.srcTarget.color(args.targetIndex);
    var dst := args.dstTarget.color(0);
    BlitOutcome(c, BlitFast(ctx, Color, args.filter, args.srcTarget, src, dst, args.srcRect, args.dstRect))
  }

  /** `blitDepth`: depth attachment to depth attachment. */
  function BlitDepth(cache: Cache, ctx: Context, args: BlitArgs): (r: BlitOutcome)
    requires cache.vertex != NullModule || cache.hasDevice
    ensures r.cache == LazyInit(cache)
    ensures r.result == BlitFast(ctx, Depth, args.filter, args.srcTarget,
                                 args.srcTarget.depth, args.dstTarget.depth,
                                 args.srcRect, args.dstRect)
    ensures r.result.InvariantViolation? <==> UsesResolve(args.srcTarget.depth, args.dstTarget.depth)
    ensures r.result.Recorded? ==> |r.result.commands| >= 4
    ensures r.result.Recorded? ==> r.result.commands[2].Blit? && r.result.commands[2].filter == args.filter
  {
    var c := LazyInit(cache);
    BlitOutcome(c, BlitFast(ctx, Depth, args.filter, args.srcTarget, args.srcTarget.depth,
                            args.dstTarget.depth, args.srcRect, args.dstRect))
  }
}
