# Vulkan blitter: command and barrier sequencing

A Dafny model of `VulkanBlitter` in Filament's Vulkan backend. It copies a rectangle from
one render-target attachment to another inside a command buffer. The model covers three
parts:

- `transitionHelper`, the blitter's private barrier policy. It fills in access masks and
  pipeline stages from the new layout alone (module `Transition`).
- `blitColor`, `blitDepth` and `blitFast` (module `Blitter`). Each call records two entry
  barriers that put the images into transfer layouts. It then records one copy command:
  `vkCmdResolveImage` or `vkCmdBlitImage`. Last come one or two exit barriers that return
  each image to its working layout. Commands are returned as a trace of `Event`s instead of
  being written into a `VkCommandBuffer`.
- The lazily created vertex and fragment shader modules, `lazyInit` and `shutdown`
  (module `ShaderCache`). Device calls go into a log, and the driver's handle allocator is
  a counter.

Module `Trace` states what a recorded trace means:

- how many barriers and copies it holds, and in which order;
- whether every barrier's access bits are supported by its stages, per the access-type
  table in the Vulkan specification, chapter "Synchronization and Cache Control";
- for every image subresource, the layout it is in when the copy executes and after the
  blit (a layout tracker replays the trace);
- a session of several blits on one blitter.

Module `Scenarios` holds three end-to-end examples.

Inputs the blitter reads from code that is not part of this model are passed in as a
`Context`:

- the texture-usage to layout mapping (`getTextureLayout`);
- the current swap-chain attachment's layout;
- whether the current surface is headless.

A `RenderTarget` record stands for the render target's `getColor`, `getDepth` and
`getExtent`.

Three behaviours of the code are worth stating on their own:

- `shutdown` never resets the handles, so a second call destroys the same modules again
  (`ShaderCache.ShutdownTwiceDestroysAgain`).
- A resolve also needs both attachments to have a texture (VulkanBlitter.cpp:160), so a
  default render target always gets a blit.
- A depth resolve breaks the invariant at :161 after both entry barriers have been
  recorded (`Trace.DepthResolveRecordsNoCopy`).

## Model

| member | source | states |
|---|---|---|
| Transition.TransitionHelper | filament/backend/src/vulkan/VulkanBlitter.cpp:34-54 | image, layouts and subresources are kept; for SHADER_READ_ONLY_OPTIMAL or GENERAL the sync fields become TRANSFER/TRANSFER_WRITE to FRAGMENT_SHADER/SHADER_READ, for every other layout TRANSFER/TRANSFER_READ to TOP_OF_PIPE/none |
| Transition.TransitionHelperWellScoped | filament/backend/src/vulkan/VulkanBlitter.cpp:34-54 | for every input the result is a valid barrier: both stage masks non-empty, and every access bit performed by one of its stages per the Vulkan access-type table |
| Transition.TransitionHelperIgnoresOldSync | filament/backend/src/vulkan/VulkanBlitter.cpp:34-53 | two transitions with the same new layout get the same sync fields, whatever sync fields they came in with |
| Transition.TransitionHelperIdempotent | filament/backend/src/vulkan/VulkanBlitter.cpp:34-54 | applying the helper twice gives the same transition as applying it once |
| ShaderCache.LazyInit | filament/backend/src/vulkan/VulkanBlitter.cpp:207-226 | with the vertex module set, nothing changes; otherwise (the device must exist) the log gains the vertex creation, then the fragment creation, of two distinct freshly allocated handles, and afterwards the vertex module is set |
| ShaderCache.Shutdown | filament/backend/src/vulkan/VulkanBlitter.cpp:198-203 | with a device, destroys the vertex then the fragment module; without one, changes nothing; the handles and the handle allocator are never reset |
| ShaderCache.LazyInitPreservesConsistency | filament/backend/src/vulkan/VulkanBlitter.cpp:207-226 | lazy initialisation keeps the cache invariant (both handles set together, distinct, one creation per set handle) and leaves both modules ready |
| ShaderCache.LazyInitIdempotent | filament/backend/src/vulkan/VulkanBlitter.cpp:207-210 | a second `lazyInit` right after the first changes nothing |
| ShaderCache.LazyInitCreatesOnce | filament/backend/src/vulkan/VulkanBlitter.cpp:207-226 | two consecutive `lazyInit` calls create two modules in all when none existed and none otherwise, and destroy nothing |
| ShaderCache.ShutdownDestroyCount | filament/backend/src/vulkan/VulkanBlitter.cpp:198-203 | `shutdown` issues two destroy calls with a device and none without, creates nothing, and keeps the cache invariant |
| ShaderCache.ShutdownDestroysCreatedModules | filament/backend/src/vulkan/VulkanBlitter.cpp:198-226 | after initialisation on a device, shutdown destroys exactly the two modules that were created, each once |
| ShaderCache.ShutdownTwiceDestroysAgain | filament/backend/src/vulkan/VulkanBlitter.cpp:198-203 | because the handles are not reset, a second shutdown destroys the vertex module again (twice more if both handles are equal) |
| Blitter.CopyCommand | filament/backend/src/vulkan/VulkanBlitter.cpp:160-167 | the copy reads the source in TRANSFER_SRC_OPTIMAL and writes the destination in TRANSFER_DST_OPTIMAL; it is a resolve iff the source texture has more than one sample and the destination texture exactly one, otherwise a blit with the caller's filter |
| Blitter.BlitFast | filament/backend/src/vulkan/VulkanBlitter.cpp:106-196 | a depth resolve is the only failure, and it leaves exactly the two entry barriers recorded; otherwise the trace is the source entry barrier, the destination entry barrier, the copy, the source exit barrier when one is due, and the destination exit barrier last |
| Blitter.BlitColor | filament/backend/src/vulkan/VulkanBlitter.cpp:56-79 | runs `lazyInit` first, then records exactly what `blitFast` records for colour attachment `targetIndex` of the source, colour attachment 0 of the destination, the colour aspect and the caller's filter and rectangles; it never fails, and resolves exactly under the sample-count rule |
| Blitter.BlitDepth | filament/backend/src/vulkan/VulkanBlitter.cpp:81-104 | runs `lazyInit` first, then records exactly what `blitFast` records for the two depth attachments, the depth aspect and the caller's filter and rectangles; it fails exactly when the depth attachments meet the resolve rule, and otherwise always blits with the caller's filter |
| Trace.BlitFastCounts | filament/backend/src/vulkan/VulkanBlitter.cpp:142-195 | a recorded blit holds exactly one copy command and three or four barriers, three exactly when the source has no texture and the surface is headless |
| Trace.DepthResolveRecordsNoCopy | filament/backend/src/vulkan/VulkanBlitter.cpp:142-163 | a depth resolve stops with two barriers and no copy recorded |
| Trace.BlitFastOrder | filament/backend/src/vulkan/VulkanBlitter.cpp:142-167 | the first barrier moves the source UNDEFINED to TRANSFER_SRC_OPTIMAL (BOTTOM_OF_PIPE/none to TRANSFER/TRANSFER_READ), the second moves the destination UNDEFINED to TRANSFER_DST_OPTIMAL (to TRANSFER/TRANSFER_WRITE), each on one level and layer; the third command is the only copy; everything after it is a barrier |
| Trace.BlitFastBarriersWellScoped | filament/backend/src/vulkan/VulkanBlitter.cpp:142-195 | every barrier of a recorded blit, entry and exit, is valid: non-empty stage masks and every access bit supported by its stages |
| Trace.BlitFastExitBarriers | filament/backend/src/vulkan/VulkanBlitter.cpp:169-195 | the source exits to its texture's usage layout, else to COLOR_ATTACHMENT_OPTIMAL on a surface that is not headless, else gets no barrier; the last barrier takes the destination's level and layer to its texture's usage layout, else the swap chain's layout, with the helper's sync fields |
| Trace.CopyDecision | filament/backend/src/vulkan/VulkanBlitter.cpp:160-167 | the trace holds a resolve iff the source texture is multisampled and the destination texture single-sampled; a resolve implies the colour aspect; a missing texture on either side forces a blit; every blit carries the caller's filter |
| Trace.CopyRegions | filament/backend/src/vulkan/VulkanBlitter.cpp:109-124 | copy regions cover one layer at each attachment's level and layer; a blit keeps both rectangles; a resolve uses the first corner of each and the source target's extent with depth 1 |
| Trace.BlitFastLayouts | filament/backend/src/vulkan/VulkanBlitter.cpp:126-195 | for distinct source and destination subresources and any prior layouts, the copy finds both in the layouts it declares; afterwards the destination is in its exit layout, the source in its exit layout (or still TRANSFER_SRC_OPTIMAL when it gets none), and no other subresource changes |
| Trace.SameSubresourceNotReady | filament/backend/src/vulkan/VulkanBlitter.cpp:142-166 | when source and destination are the same subresource, the destination entry barrier leaves it in TRANSFER_DST_OPTIMAL, so the copy does not find it in the source layout it declares |
| Trace.Dispatch | filament/backend/src/vulkan/VulkanBlitter.cpp:56-104 | both entry points leave the shader cache exactly as `lazyInit` does |
| Trace.SessionCreatesModulesOnce | filament/backend/src/vulkan/VulkanBlitter.cpp:207-226 | over any sequence of blits the modules are created once (two creations if the cache started empty and a blit ran, none otherwise), nothing is destroyed, the cache stays consistent, and a session that did not halt holds one copy per blit |
| Scenarios.ResolveScenario | filament/backend/src/vulkan/VulkanBlitter.cpp:106-196 | a 4-sample colour texture into a 1-sample one: two entry barriers, a resolve, then each texture back to its usage layout |
| Scenarios.BlitScenario | filament/backend/src/vulkan/VulkanBlitter.cpp:160-167 | two single-sampled textures with different rectangles give a blit with the nearest filter and the caller's destination rectangle |
| Scenarios.DepthResolveScenario | filament/backend/src/vulkan/VulkanBlitter.cpp:160-161 | a 4-sample depth texture into a 1-sample one violates the invariant after two recorded barriers |

## Left out

- Vulkan calls (`vkCmdBlitImage`, `vkCmdResolveImage`, `transitionImageLayout`,
  `vkCreateShaderModule`, `vkDestroyShaderModule`): modelled only as trace events or
  log entries.
- The format-capability check: it is compiled out (`FILAMENT_VULKAN_CHECK_BLIT_FORMAT` is 0)
  and depends on `vkGetPhysicalDeviceFormatProperties`. Attachment formats are therefore
  not modelled.
- Shader bytecode contents and sizes: they do not affect sequencing.
- A failed `vkCreateShaderModule`: `ASSERT_POSTCONDITION` halts the program, so creation
  always succeeds in the model.
- `getTextureLayout`, `getSwapChainAttachment`, and the render target's `getColor`,
  `getDepth` and `getExtent`: their code is not part of this model. They enter as fields
  of `Context` and `RenderTarget`.
- ShaderCache.LazyInit: `assert_invariant(mContext.device)` is a precondition. A release
  build that compiles the assertion out is not modelled.
- Blitter.BlitFast: `assert_invariant` on a depth resolve is modelled as the
  `InvariantViolation` result. A release build that compiles it out and records the
  resolve is not modelled.
- Image contents: the layout tracker follows layouts only. The entry and exit barriers
  all use UNDEFINED as the old layout. What that means for the preservation of the copied
  data is not modelled.
- Trace.BlitFastLayouts: it assumes source and destination are different subresources,
  as the Vulkan copy commands require. The overlapping case is covered only by
  `Trace.SameSubresourceNotReady`.
- Integer widths: levels, layers, sample counts and extents are unbounded naturals, and
  offsets are unbounded integers. The blitter only copies them, so 32-bit limits play no
  part.
- Concurrency: there is none. A call records into one caller-owned command buffer.
