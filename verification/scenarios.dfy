/**
 Three end-to-end blits on concrete attachments: a multisample colour resolve between
 textures, a filtered blit between single-sampled textures, and a depth resolve that
 breaks the program's invariant.
 */
module Scenarios {
  import opened VkTypes
  import opened Transition
  import opened ShaderCache
  import opened Blitter

  const Rect := RectPair(Offset3D(0, 0, 0), Offset3D(64, 64, 1))

  function Target(a: Attachment): RenderTarget {
    RenderTarget((i: nat) => a, a, Extent2D(64, 64))
  }

  /**
   A 4-sample colour texture resolved into a 1-sample one: two entry barriers, a resolve,
   then each texture back to the layout of its usage.
   */
  lemma ResolveScenario(ctx: Context, cache: Cache, srcUsage: UsageFlags, dstUsage: UsageFlags)
    requires cache.vertex != NullModule || cache.hasDevice
    ensures var src := Attachment(1, 0, 0, Some(Texture(4, srcUsage)));
      var dst := Attachment(2, 0, 0, Some(Texture(1, dstUsage)));
      var o := BlitColor(cache, ctx, BlitArgs(Target(src), Target(dst), 0, Rect, Rect, Linear));
      && o.result.Recorded?
      && |o.result.commands| == 5
      && o.result.commands[0].transition.newLayout == TransferSrcOptimal
      && o.result.commands[1].transition.newLayout == TransferDstOptimal
      && o.result.commands[2].Resolve?
      && o.result.commands[3].transition.image == 1
      && o.result.commands[3].transition.newLayout == ctx.textureLayout(srcUsage)
      && o.result.commands[4].transition.image == 2
      && o.result.commands[4].transition.newLayout == ctx.textureLayout(dstUsage)
  {
  }

  /** Two single-sampled textures with different rectangles: a blit with the nearest filter. */
  lemma BlitScenario(ctx: Context, cache: Cache, srcUsage: UsageFlags, dstUsage: UsageFlags)
    requires cache.vertex != NullModule || cache.hasDevice
    ensures var src := Attachment(1, 0, 0, Some(Texture(1, srcUsage)));
      var dst := Attachment(2, 0, 0, Some(Texture(1, dstUsage)));
      var half := RectPair(Offset3D(0, 0, 0), Offset3D(32, 32, 1));
      var o := BlitColor(cache, ctx, BlitArgs(Target(src), Target(dst), 0, Rect, half, Nearest));
      && o.result.Recorded?
      && o.result.commands[2].Blit?
      && o.result.commands[2].filter == Nearest
      && o.result.commands[2].blitRegion.dstOffsets == half
  {
  }

  /** A depth resolve of a 4-sample texture into a 1-sample one violates the invariant. */
  lemma DepthResolveScenario(ctx: Context, cache: Cache, usage: UsageFlags)
    requires cache.vertex != NullModule || cache.hasDevice
    ensures var src := Attachment(1, 0, 0, Some(Texture(4, usage)));
      var dst := Attachment(2, 0, 0, Some(Texture(1, usage)));
      var o := BlitDepth(cache, ctx, BlitArgs(Target(src), Target(dst), 0, Rect, Rect, Nearest));
      o.result.InvariantViolation? && |o.result.recorded| == 2
  {
  }
}
