# Frame pacing and swapchain rules of the Vulkan triangle renderer

This project models the decision and bookkeeping logic of `HelloTriangleApplication`
in `tutorial/triangle.cpp`, and proves properties of that model. Everything else in
that file is Vulkan and GLFW plumbing.

The model has five modules.

- `Vk` holds the Vulkan values the logic reads and writes:
  - enumerations keep their `vulkan_core.h` numbers;
  - flag words are `bv32`;
  - counts and extents are a `u32` newtype, with the C++ cast to `uint32_t` written out as reduction modulo 2^32.
- `SwapchainChoice` holds the selection rules of `create_swapchain` as pure functions: surface format, present mode, extent, image count, sharing mode, and the create info built from them.
- `DeviceQuery` holds the searches over what the device reports:
  - a memory type, as a first-match recursion;
  - a supported format, and the depth format, as a first-match recursion;
  - the queue families, as a `while` loop that keeps the last match of each kind and stops once both are known;
  - the required extensions, as a `for` loop that removes each reported name from the set of required ones.

  It also holds the `transition_img_layout` decision table and `has_stencil_component`.
- `FramePacing` is the specification of one `draw()` call as a function `Tick` on a `FrameState`. The state has the following parts:
  - the cursor `current_frame`;
  - the flag `framebuf_resized`;
  - the table `images_in_flight`;
  - what the CPU knows to be signalled;
  - the logs of fence waits, submissions and presentation requests.

  `Run` is the main loop: before each call `PollEvents` applies the resize event the window system may deliver, then `Tick` runs; the loop stops at the first call that throws. The lemmas cover one call and whole runs.
- `Renderer` holds the class `HelloTriangleApplication`:
  - its member vectors are fields of type `seq`;
  - the `create_*` members are methods that resize those vectors and fill them in index loops;
  - `recreate_swapchain` and `init_vulkan` sequence those methods;
  - `draw` is a method proved to change the frame state exactly as `Tick` says.

  The draw-loop members the source keeps as separate fields are held in two record-valued fields:
  - `sync` holds `img_available`, `render_finished` and `in_flight_fences`;
  - `frame` holds `current_frame`, `framebuf_resized` and `images_in_flight`, with the fence knowledge and logs.

Device objects are opaque handles. A counter `nextHandle` hands out a fresh one at every creation, and 0 plays `VK_NULL_HANDLE`.

Four things that come from outside the program are parameters of the model:
- A `Surface` holds what the window system reports when a swapchain is built: capabilities, formats, present modes, window size, and the number of images the device grants.
- A `PhysicalDevice` holds the queue families and format properties of the chosen device.
- A `DrawInput` holds the outcomes of one `draw()` call's device calls:
  - the acquire result and the image index;
  - whether submission succeeds;
  - the present result.
- A `LoopInput` pairs a `DrawInput` with whether the `glfwPollEvents` call before that `draw()` ran the framebuffer-resize callback.

Each result is one of `Success`, `Suboptimal`, `OutOfDate` or `OtherError`.

Three behaviours of the code are easy to misread, and the model keeps each of them:
- **Ownership table sizing.** `images_in_flight` is sized only in `create_sync` (tutorial/triangle.cpp:1322). `recreate_swapchain` never resizes or resets it. `RecreateSwapchain` does not change `frame`, and `GrowingRebuildScenario` exhibits a rebuild that leaves the table shorter than the new swapchain.
- **Cursor after an acquire-time rebuild.** An out-of-date acquisition rebuilds and returns before the cursor moves (tutorial/triangle.cpp:1856-1860), so the cursor does not advance on that call. See `AcquireOutOfDateLeavesFrame`.
- **Owner wait.** A call waits on an image's owner whenever its entry is non-null (tutorial/triangle.cpp:1865-1866). This includes an owner that is the slot's own fence, which was just waited on. See `AcquireClaimsImage`.

## Model

| member | source | states |
|---|---|---|
| Vk.ToU32 | tutorial/triangle.cpp:520-524 | `static_cast<uint32_t>` of an int: the value itself when it fits, otherwise the value congruent to it modulo 2^32 |
| SwapchainChoice.FirstPreferredFrom | tutorial/triangle.cpp:485-495 | the scan returns the first B8G8R8A8_SRGB / SRGB_NONLINEAR entry at or after the start, or the list length when there is none |
| SwapchainChoice.ChooseSurfaceFormat | tutorial/triangle.cpp:483-498 | for a non-empty list: the result is an entry of the list; it is the preferred format whenever some entry is preferred; otherwise it is `formats[0]` |
| SwapchainChoice.ScanPresentModes | tutorial/triangle.cpp:502-508 | from a position, the scan yields MAILBOX exactly when MAILBOX occurs in the rest of the list, and FIFO otherwise |
| SwapchainChoice.ChoosePresentMode | tutorial/triangle.cpp:500-509 | MAILBOX exactly when MAILBOX occurs in the list, FIFO otherwise, with no error path |
| SwapchainChoice.PresentModeScenarios | tutorial/triangle.cpp:500-509 | {FIFO, MAILBOX} gives MAILBOX; {FIFO} and the empty list give FIFO |
| SwapchainChoice.Clamp | tutorial/triangle.cpp:526-535 | `max(lo, min(hi, x))` lies in [lo, hi] when lo <= hi, keeps an x already inside, gives lo when hi < lo, and is always one of x, lo, hi |
| SwapchainChoice.ChooseExtent | tutorial/triangle.cpp:511-539 | a fixed current extent is returned unchanged; otherwise each component is the window size cast to uint32_t and clamped to [min, max] |
| SwapchainChoice.ChosenExtentWithinBounds | tutorial/triangle.cpp:526-537 | when the window decides and the bounds are ordered, the extent lies within the bounds, and a window size already within them is kept |
| SwapchainChoice.RequestedImageCount | tutorial/triangle.cpp:663-665 | never above a non-zero maximum; minImageCount + 1 when that is allowed; the maximum when it caps; 0 when minImageCount + 1 wraps around |
| SwapchainChoice.RequestedImageCountInRange | tutorial/triangle.cpp:663-665 | with device-consistent bounds the request lies in [min, max], and equals the minimum exactly when a non-zero maximum equals it |
| SwapchainChoice.MinOneNoMaxGivesTwo | tutorial/triangle.cpp:663-665 | minImageCount 1 and no maximum request two images |
| SwapchainChoice.ChooseSharing | tutorial/triangle.cpp:677-691 | an error exactly when a queue family is missing; otherwise concurrent sharing between [graphics, present] exactly when they differ, else exclusive with no family list |
| SwapchainChoice.SwapchainInfoFor | tutorial/triangle.cpp:655-697 | the create info fails exactly when a queue family is missing; otherwise it carries the chosen format, colour space, image count, extent, present mode, sharing and the current transform |
| DeviceQuery.FirstMemoryTypeFrom | tutorial/triangle.cpp:815-823 | the scan returns the first index at or after the start with the filter bit set and all requested properties, or the count when there is none |
| DeviceQuery.FindMemoryType | tutorial/triangle.cpp:810-826 | a success is suitable and no smaller index is suitable; it fails exactly when no index below memoryTypeCount is suitable, with "no suitable memory type" |
| DeviceQuery.EmptyFilterFindsNothing | tutorial/triangle.cpp:817-822 | a filter with no bit set below memoryTypeCount finds nothing, whatever properties are asked for |
| DeviceQuery.PropertiesOf | tutorial/triangle.cpp:1728-1729 | a format the device table does not list reports no features |
| DeviceQuery.FirstSupportedFrom | tutorial/triangle.cpp:1726-1738 | the scan returns the first candidate at or after the start whose features for the tiling contain the requested ones, or the length when there is none |
| DeviceQuery.FindSupportedFormat | tutorial/triangle.cpp:1719-1742 | a success is a candidate that qualifies and has no qualifying candidate before it; it fails exactly when no candidate qualifies, with "no supported format" |
| DeviceQuery.OtherTilingFindsNothing | tutorial/triangle.cpp:1731-1738 | a tiling other than LINEAR and OPTIMAL finds no format |
| DeviceQuery.FindDepthFormat | tutorial/triangle.cpp:1744-1752 | D32_SFLOAT exactly when it can be an optimally tiled depth attachment; else D32_SFLOAT_S8_UINT exactly when that can; else D24_UNORM_S8_UINT exactly when that can; NoSupportedFormat exactly when none of the three can |
| DeviceQuery.HasStencilComponent | tutorial/triangle.cpp:1754-1757 | true exactly for the depth candidates after the first, the two formats with a stencil part |
| DeviceQuery.DepthCandidatesStencil | tutorial/triangle.cpp:1744-1757 | of the three depth candidates only the first lacks a stencil component; the colour formats have none |
| DeviceQuery.TransitionImageLayout | tutorial/triangle.cpp:1598-1668 | accepts exactly the three (old, new) layout pairs of the table and rejects every other pair with "unsupported layout transition" |
| DeviceQuery.TransitionAspect | tutorial/triangle.cpp:1615-1621 | the aspect of an accepted transition has DEPTH exactly for the depth-target layout, STENCIL exactly when that format has a stencil component, and COLOR exactly otherwise |
| DeviceQuery.TransitionMasks | tutorial/triangle.cpp:1626-1662 | the access masks, stages and aspect of each of the three accepted transitions |
| DeviceQuery.DepthTransitionAccepted | tutorial/triangle.cpp:1759-1782 | the transition create_depth_buffer requests for the depth format it found is always accepted, with a stencil aspect exactly for the stencil formats |
| DeviceQuery.LastGraphicsBefore | tutorial/triangle.cpp:437-442 | the index held after n families is the last graphics-capable one among them, and is absent exactly when none of them is |
| DeviceQuery.LastPresentBefore | tutorial/triangle.cpp:443-447 | the index held after n families is the last one that can present, and is absent exactly when none of them can |
| DeviceQuery.ScanCompleteIff | tutorial/triangle.cpp:205-208 | `is_complete` of the indices held after the first n families: true exactly when one of those families has graphics and one can present |
| DeviceQuery.ExaminedFrom | tutorial/triangle.cpp:438-453 | the loop stops right after the first family at which both indices are known, or at the end |
| DeviceQuery.FindQueueFamilies | tutorial/triangle.cpp:427-456 | the result is the scan state where the loop stops; it is complete exactly when some family has graphics and some family can present; every index it holds is a family with that capability |
| DeviceQuery.CheckDeviceExtensionSupport | tutorial/triangle.cpp:541-555 | true exactly when every required extension name is among the reported names |
| FramePacing.Tick | tutorial/triangle.cpp:1842-1914 | one draw() call keeps the cursor a valid slot and keeps the length of images_in_flight |
| FramePacing.AcquireOutOfDateLeavesFrame | tutorial/triangle.cpp:1844-1860 | after the slot fence wait, an out-of-date acquisition rebuilds and leaves cursor, table, resize flag and the submission and presentation logs as they were |
| FramePacing.AcquireClaimsImage | tutorial/triangle.cpp:1864-1888 | an acquired image is claimed for the slot's fence; the call waits on the previous owner whenever there is one; the slot fence ends unsignalled, the previous owner becomes known-signalled, and no other fence changes |
| FramePacing.PresentingTicks | tutorial/triangle.cpp:1890-1913 | which calls present (both directions); a presenting call rebuilds exactly on out-of-date, suboptimal or a pending resize, then clears the flag; it submits and presents the acquired image with the slot's objects and advances the cursor modulo 2 |
| FramePacing.FailingTicks | tutorial/triangle.cpp:1856-1913 | which calls throw which error, in both directions, and a throwing call never advances the cursor |
| FramePacing.LastFenceFor | tutorial/triangle.cpp:1864-1869 | the fence of the latest submission that rendered into an image, absent exactly when no submission did |
| FramePacing.LastFenceAfterSubmit | tutorial/triangle.cpp:1890-1891 | a new submission becomes the latest one for its own image and changes no other image's latest one |
| FramePacing.InitialFrameValid | tutorial/triangle.cpp:1317-1340 | the state create_sync leaves meets the frame invariant and the ownership meaning |
| FramePacing.TickKeepsSlotOwners | tutorial/triangle.cpp:1869 | every call keeps images_in_flight holding only slot fences |
| FramePacing.TickKeepsOwnershipLog | tutorial/triangle.cpp:1864-1891 | every call that does not throw keeps each entry of images_in_flight equal to the fence of the latest submission into that image |
| FramePacing.OwnerWaitIsLastSubmission | tutorial/triangle.cpp:1864-1866 | the ownership wait is on the fence of the latest submission that rendered into the acquired image |
| FramePacing.Run | tutorial/triangle.cpp:1916-1925 | the main loop, with the resize event of each `glfwPollEvents` applied before its call, records at most one entry per call and at least one when there is a call; the cursor stays a valid slot and the table keeps its length |
| FramePacing.RunStep | tutorial/triangle.cpp:1916-1925 | a call that does not throw is followed by the rest of the loop |
| FramePacing.RunKeepsOwnershipLog | tutorial/triangle.cpp:1916-1925 | a loop in which no call throws keeps the meaning of images_in_flight |
| FramePacing.NonFailingTick | tutorial/triangle.cpp:1842-1913 | a call whose device calls all succeed presents, rebuilds exactly on a stale present or a pending resize, advances the cursor, clears the flag and logs one submission |
| FramePacing.NonFailingRunStep | tutorial/triangle.cpp:1916-1925 | a first call whose device calls all succeed presents, rebuilding exactly on a stale present or a raised flag; it advances the cursor, clears the flag and logs its submission, and the rest of the loop starts from the state it leaves |
| FramePacing.SlotAfter | tutorial/triangle.cpp:1913 | any number of advances from a valid slot stays a valid slot |
| FramePacing.SlotAfterCycles | tutorial/triangle.cpp:1913 | k advances from slot c lead to slot (c + k) mod MAX_FRAMES_IN_FLIGHT |
| FramePacing.SlotAfterPeriod | tutorial/triangle.cpp:94 | with two frame slots, two advances return to the same slot |
| FramePacing.NonFailingRunFrames | tutorial/triangle.cpp:1913 | in a loop of non-failing calls every call completes, the k-th uses the slot k advances after the start, and the cursor ends |inputs| advances on |
| FramePacing.NonFailingRunFrameAt | tutorial/triangle.cpp:1913 | the k-th call of a loop of non-failing calls uses the slot k advances after the starting one |
| FramePacing.NonFailingRunOutcomes | tutorial/triangle.cpp:1904-1925 | in such a loop every call presents; the k-th rebuilds exactly when its present was stale or the poll just before it delivered a resize, the first call also when a resize was pending before the loop |
| FramePacing.Submitted | tutorial/triangle.cpp:1877-1891 | such a loop makes one submission per call |
| FramePacing.SubmittedAt | tutorial/triangle.cpp:1877-1891 | the k-th submission is the acquired image's command buffer with the semaphores and fence of the k-th slot |
| FramePacing.NonFailingRunSubmissions | tutorial/triangle.cpp:1888-1891 | such a loop appends exactly those submissions to the log, in order |
| FramePacing.NonFailingRunWaitsOnEarlierSubmission | tutorial/triangle.cpp:1844 | from the third call of such a loop on, the fence a call waits on first is the fence of the submission made two calls earlier |
| FramePacing.OutOfDateThenResize | tutorial/triangle.cpp:1904-1925 | out-of-date at the third of four presents and a resize delivered before the fourth: exactly those two calls rebuild, the cursor runs 0,1,0,1 and is back at 0, and the table keeps its length |
| Renderer.Resize | tutorial/triangle.cpp:1322 | `std::vector::resize(n, pad)`: length n, the old elements kept up to n, the padding after them |
| Renderer.ResizeEmpty | tutorial/triangle.cpp:1322 | resizing an empty vector fills it with the padding value |
| Renderer.HelloTriangleApplication.constructor | tutorial/triangle.cpp:221-295 | the member initialisers: cursor 0, resize flag clear, every vector empty, no swapchain, undefined format and zero extent, null depth handles, and the handle counter at 1 |
| Renderer.HelloTriangleApplication.CreateSwapchain | tutorial/triangle.cpp:655-709 | succeeds exactly when the create info does; then the swapchain carries that info, one image per granted image, and the recorded format and extent are the chosen ones; a failure changes nothing |
| Renderer.HelloTriangleApplication.CreateImageView | tutorial/triangle.cpp:741-765 | a new view of the given image, format and aspect |
| Renderer.HelloTriangleApplication.CreateImageViews | tutorial/triangle.cpp:767-780 | one colour view per swapchain image, view i of image i, in the swapchain format |
| Renderer.HelloTriangleApplication.CreateDepthBuffer | tutorial/triangle.cpp:1759-1782 | succeeds exactly when a depth format exists; then the image, its memory and a depth view in that format, and the accepted transition to the depth-attachment layout |
| Renderer.HelloTriangleApplication.CreateFramebuffers | tutorial/triangle.cpp:1218-1238 | one framebuffer per view, attaching view i and the depth view, over the swapchain extent |
| Renderer.HelloTriangleApplication.CreateUniformBuffers | tutorial/triangle.cpp:1371-1387 | one buffer and one memory object per swapchain image |
| Renderer.HelloTriangleApplication.CreateDescriptorSets | tutorial/triangle.cpp:1407-1460 | one descriptor set per swapchain image, set i pointing at uniform buffer i |
| Renderer.HelloTriangleApplication.CreateCommandBuffers | tutorial/triangle.cpp:1253-1315 | one command buffer per framebuffer, buffer i recorded for framebuffer i and descriptor set i over the swapchain extent |
| Renderer.HelloTriangleApplication.CreateSync | tutorial/triangle.cpp:1317-1340 | exactly two semaphores of each kind and two fences, the fences signalled, and images_in_flight resized to the image count with null padding |
| Renderer.HelloTriangleApplication.BuildSwapchain | tutorial/triangle.cpp:798-802 | the swapchain, its views and the depth buffer; succeeds exactly when the device has both queue families and a depth format |
| Renderer.HelloTriangleApplication.BuildPerImageResources | tutorial/triangle.cpp:803-807 | framebuffers, uniform buffers, descriptor sets and command buffers, each sized and wired from what they hang off |
| Renderer.HelloTriangleApplication.InitVulkan | tutorial/triangle.cpp:1784-1809 | fails exactly when a queue family or depth format is missing; otherwise the object is valid, the swapchain is built from the surface, and images_in_flight has one null entry per image with every slot fence signalled |
| Renderer.HelloTriangleApplication.RecreateSwapchain | tutorial/triangle.cpp:782-808 | the swapchain-dependent part is rebuilt from the current surface, with every per-image vector matching the new image count; the frame state and the sync objects are not touched |
| Renderer.HelloTriangleApplication.FramebufferResizeCallback | tutorial/triangle.cpp:308-312 | raises the resize flag and changes nothing else |
| Renderer.HelloTriangleApplication.WaitForFence | tutorial/triangle.cpp:1844 | logs the wait and records the fence as signalled |
| Renderer.HelloTriangleApplication.FrameStep | tutorial/triangle.cpp:1842-1913 | the in-place updates of draw() leave the frame state and outcome that `Tick` specifies, and keep both frame invariants unless the call throws |
| Renderer.HelloTriangleApplication.Draw | tutorial/triangle.cpp:1842-1914 | draw(): the frame state changes exactly as `Tick` says; a call that does not throw leaves the object valid; a rebuilding call leaves a swapchain built from the current surface, and any other call leaves the swapchain objects and the handle counter as they were |
| Renderer.GrowingRebuildScenario | tutorial/triangle.cpp:782-808 | a rebuild that gets three images after two leaves images_in_flight at two entries |

## Left out

- Vulkan and GLFW calls: none is modelled. Their results are inputs: `Surface`, `PhysicalDevice`, `DrawInput`, `LoopInput`, and the `supportsPresent` function of `FindQueueFamilies`.
- Creation failures: every `vkCreate*`, `vkAllocate*` and `vkQueueSubmit` failure other than the submit flag of `DrawInput` is not modelled, and creation always yields a fresh handle.
- GPU execution: fences and semaphores are opaque handles. The GPU signalling a fence is not modelled; `signaled` holds only what the CPU has learnt from its own waits, resets and fence creation.
- Blocking: the blocking of `vkWaitForFences`, `vkDeviceWaitIdle` and presentation is not modelled. A wait is one logged step.
- Minimized window: the polling loop in `recreate_swapchain` (tutorial/triangle.cpp:786-792) is window I/O. `RecreateSwapchain` and `Draw` require a non-zero window size instead.
- Swapchain teardown: `cleanup_swapchain` and `cleanup` destroy objects. Destruction is not modelled, and the old handles are simply no longer referenced.
- Render pass, pipeline, descriptor pool, command pool, texture, sampler, vertex and index buffers: these are plain struct filling with no decisions. This includes the render pass, pipeline and descriptor pool that `recreate_swapchain` recreates.
- Memory-type search during creation: `find_mem_type` as called inside `create_buffer` and `create_img` is not part of `CreateUniformBuffers` and `CreateDepthBuffer`. That failure path of those two is not modelled; `FindMemoryType` models the search itself.
- Draw inputs: `update_unif_buf` (floats and a timer) and the contents of recorded command buffers are left out.
- Device setup: instance creation, validation layers, the debug messenger, `pick_physical_device`, `is_device_suitable`, `create_logical_device` and `query_swap_chain_support` are device negotiation. Their results are the fields of `PhysicalDevice` and `Surface`.
- Other files: `template.c`, `triangle.cpp` and `main.cpp` are not part of this model.
- After an exception: the state after a throw is not modelled beyond the outcome `Failed`. `Run` stops there, as the exception ends the program.
- Renderer.HelloTriangleApplication.Draw: requires that the acquired index lies inside the swapchain and inside `images_in_flight`. Indexing past the latter is undefined behaviour in the source, and `GrowingRebuildScenario` shows that such an index can occur.
- Renderer.HelloTriangleApplication.RecreateSwapchain: states which objects the rebuild wires to which, but not the individual handle values of the rebuilt per-image objects.
- Renderer.HelloTriangleApplication.InitVulkan: models `init_vulkan` from `create_swapchain` on, for a newly constructed object. The steps before it are device negotiation.
- Integer widths: `current_frame` (`size_t`) never leaves {0, 1}, so its width does not matter. The handle counter is unbounded.
- Image count: the `uint32_t` wrap of `minImageCount + 1` is modelled.
