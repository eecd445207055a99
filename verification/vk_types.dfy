/**
 The slice of the Vulkan API that the blitter touches: image layouts, access and
 pipeline-stage bits, aspects, filters, and the small records that describe a layout
 transition and a single-region blit or resolve.

 Bit masks (`VkAccessFlags`, `VkPipelineStageFlags`) are modelled as sets of bits, so the
 value 0 is the empty set.
 */
module VkTypes {

  datatype Option<+T> = None | Some(value: T)

  /**
   Codes of the layouts that `ImageLayout` does not name. The named ones have the codes
   0 to 8, and 1000001002 for PRESENT_SRC_KHR, so no layout has two names.
   */
  type UnnamedLayoutCode = c: nat | 9 <= c && c != 1000001002 witness 9

  /** `VkImageLayout` */
  datatype ImageLayout =
    | Undefined
    | General
    | ColorAttachmentOptimal
    | DepthStencilAttachmentOptimal
    | DepthStencilReadOnlyOptimal
    | ShaderReadOnlyOptimal
    | TransferSrcOptimal
    | TransferDstOptimal
    | Preinitialized
    | PresentSrc
    | OtherLayout(code: UnnamedLayoutCode)

  /** Single bits of `VkAccessFlags`. */
  datatype Access =
    | TransferRead
    | TransferWrite
    | ShaderRead
    | ShaderWrite
    | ColorAttachmentRead
    | ColorAttachmentWrite

  /** Single bits of `VkPipelineStageFlags`. */
  datatype Stage =
    | TopOfPipe
    | VertexShader
    | FragmentShader
    | ColorAttachmentOutput
    | Transfer
    | BottomOfPipe

  type AccessMask = set<Access>
  type StageMask = set<Stage>

  /** The two `VkImageAspectFlags` values the blitter uses. */
  datatype Aspect = Color | Depth

  /** `VkFilter` */
  datatype Filter = Nearest | Linear

  type ImageHandle = nat

  /** `VkOffset3D`: signed 32-bit coordinates, copied and never computed with. */
  datatype Offset3D = Offset3D(x: int, y: int, z: int)

  /** The two corners `rect[0]`, `rect[1]` of a blit rectangle. */
  datatype RectPair = RectPair(lo: Offset3D, hi: Offset3D)

  /** `VkExtent2D` and `VkExtent3D`: unsigned 32-bit sizes. */
  datatype Extent2D = Extent2D(width: nat, height: nat)
  datatype Extent3D = Extent3D(width: nat, height: nat, depth: nat)

  /** `VkImageSubresourceRange` */
  datatype SubresourceRange = SubresourceRange(
    aspectMask: Aspect,
    baseMipLevel: nat,
    levelCount: nat,
    baseArrayLayer: nat,
    layerCount: nat)

  /** `VkImageSubresourceLayers` */
  datatype SubresourceLayers = SubresourceLayers(
    aspectMask: Aspect,
    mipLevel: nat,
    baseArrayLayer: nat,
    layerCount: nat)

  /** `VkImageBlit` */
  datatype ImageBlit = ImageBlit(
    srcSubresource: SubresourceLayers,
    srcOffsets: RectPair,
    dstSubresource: SubresourceLayers,
    dstOffsets: RectPair)

  /** `VkImageResolve` */
  datatype ImageResolve = ImageResolve(
    srcSubresource: SubresourceLayers,
    srcOffset: Offset3D,
    dstSubresource: SubresourceLayers,
    dstOffset: Offset3D,
    extent: Extent3D)

  /** The backend's description of one image memory barrier with a layout transition. */
  datatype LayoutTransition = LayoutTransition(
    image: ImageHandle,
    oldLayout: ImageLayout,
    newLayout: ImageLayout,
    subresources: SubresourceRange,
    srcStage: StageMask,
    srcAccessMask: AccessMask,
    dstStage: StageMask,
    dstAccessMask: AccessMask)
}
