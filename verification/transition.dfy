/**
 The blitter's private barrier policy: given a layout transition out of a transfer role,
 fill in the access masks and pipeline stages from the new layout alone.
 */
module Transition {
  import opened VkTypes

  /** Layouts after which the image is expected to be sampled by a fragment shader. */
  predicate SampledNext(layout: ImageLayout) {
    layout == ShaderReadOnlyOptimal || layout == General
  }

  /** The four synchronisation fields of a transition, grouped for comparison. */
  datatype SyncScope = SyncScope(
    srcStage: StageMask,
    srcAccessMask: AccessMask,
    dstStage: StageMask,
    dstAccessMask: AccessMask)

  function SyncOf(t: LayoutTransition): SyncScope {
    SyncScope(t.srcStage, t.srcAccessMask, t.dstStage, t.dstAccessMask)
  }

  /** Everything of a transition except its synchronisation fields. */
  predicate SameTarget(a: LayoutTransition, b: LayoutTransition) {
    && a.image == b.image
    && a.oldLayout == b.oldLayout
    && a.newLayout == b.newLayout
    && a.subresources == b.subresources
  }

  /** `transitionHelper`: overwrite the four sync fields according to the new layout. */
  function TransitionHelper(t: LayoutTransition): (r: LayoutTransition)
    ensures SameTarget(r, t)
    ensures SampledNext(t.newLayout) ==>
      SyncOf(r) == SyncScope({Transfer}, {TransferWrite}, {FragmentShader}, {ShaderRead})
    ensures !SampledNext(t.newLayout) ==>
      SyncOf(r) == SyncScope({Transfer}, {TransferRead}, {TopOfPipe}, {})
  {
    match t.newLayout
    case ShaderReadOnlyOptimal | General =>
      t.(srcAccessMask := {TransferWrite}, dstAccessMask := {ShaderRead},
         srcStage := {Transfer}, dstStage := {FragmentShader})
    case _ =>
      t.(srcAccessMask := {TransferRead}, dstAccessMask := {},
         srcStage := {Transfer}, dstStage := {TopOfPipe})
  }

  /**
   The supported-stage table of the Vulkan specification, chapter "Synchronization and
   Cache Control", section "Access Types": which pipeline stages may perform an access.
   TOP_OF_PIPE and BOTTOM_OF_PIPE perform none.
   */
  predicate StageSupports(s: Stage, a: Access) {
    match a
    case TransferRead | TransferWrite => s == Transfer
    case ShaderRead | ShaderWrite => s == VertexShader || s == FragmentShader
    case ColorAttachmentRead | ColorAttachmentWrite => s == ColorAttachmentOutput
  }

  /** Every access bit of `mask` is performed by some stage of `stages`. */
  predicate AccessesCovered(mask: AccessMask, stages: StageMask) {
    forall a :: a in mask ==> exists s :: s in stages && StageSupports(s, a)
  }

  /** A barrier whose scopes are valid: non-empty stage masks, each access supported. */
  predicate WellScoped(t: LayoutTransition) {
    && t.srcStage != {}
    && t.dstStage != {}
    && AccessesCovered(t.srcAccessMask, t.srcStage)
    && AccessesCovered(t.dstAccessMask, t.dstStage)
  }

  /** The helper always yields a valid barrier, whatever the new layout. */
  lemma TransitionHelperWellScoped(t: LayoutTransition)
    ensures WellScoped(TransitionHelper(t))
  {
  }

  /** The result depends on the new layout only: the incoming sync fields are ignored. */
  lemma TransitionHelperIgnoresOldSync(a: LayoutTransition, b: LayoutTransition)
    requires a.newLayout == b.newLayout
    ensures SyncOf(TransitionHelper(a)) == SyncOf(TransitionHelper(b))
  {
  }

  /** Applying the helper a second time changes nothing. */
  lemma TransitionHelperIdempotent(t: LayoutTransition)
    ensures TransitionHelper(TransitionHelper(t)) == TransitionHelper(t)
  {
  }
}
