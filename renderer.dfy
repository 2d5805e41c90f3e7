/** The renderer object: the swapchain and the per-image resources built on it, the
    per-slot synchronisation objects, and the frame loop's state. Every create_*
    member sizes its vector from the vector it hangs off and fills it in a loop;
    recreate_swapchain rebuilds the swapchain-dependent part; draw is one Tick of
    the frame-pacing model. Device objects are opaque handles drawn from a counter,
    0 playing the part of VK_NULL_HANDLE. */
module Renderer {
  import opened Vk
  import opened SwapchainChoice
  import opened DeviceQuery
  import opened FramePacing

  const NULL_HANDLE: Handle := 0

  /** The chosen physical device: its queue families and its format support. */
  datatype PhysicalDevice = PhysicalDevice(queueFamilies: QueueFamilyIndices, formatProperties: FormatQuery)

  /** What the window system reports when a swapchain is built: the surface
      capabilities, formats and present modes, the framebuffer size of the window,
      and how many images the device grants for the requested minimum. */
  datatype Surface = Surface(
    capabilities: SurfaceCapabilities,
    formats: seq<SurfaceFormat>,
    presentModes: seq<PresentMode>,
    windowWidth: int,
    windowHeight: int,
    grantedImageCount: nat)

  datatype Swapchain = Swapchain(handle: Handle, createInfo: SwapchainCreateInfo)
  datatype ImageView = ImageView(handle: Handle, image: Handle, format: Format, aspectMask: bv32)
  datatype Framebuffer = Framebuffer(handle: Handle, colorAttachment: Handle, depthAttachment: Handle, extent: Extent2D)
  datatype DescriptorSet = DescriptorSet(handle: Handle, uniformBuffer: Handle)
  datatype CommandBuffer = CommandBuffer(handle: Handle, framebuffer: Handle, descriptorSet: Handle, renderArea: Extent2D)

  const NULL_VIEW := ImageView(NULL_HANDLE, NULL_HANDLE, FORMAT_UNDEFINED, 0)
  const NULL_FRAMEBUFFER := Framebuffer(NULL_HANDLE, NULL_HANDLE, NULL_HANDLE, Extent2D(0, 0))

  /** std::vector::resize(n, pad): the first min(|s|, n) elements are kept and the
      vector is padded with `pad` up to length n. */
  function Resize<T>(s: seq<T>, n: nat, pad: T): (r: seq<T>)
    ensures |r| == n
    ensures forall i :: 0 <= i < n ==> r[i] == if i < |s| then s[i] else pad
  {
    if n <= |s| then s[..n] else s + seq(n - |s|, _ => pad)
  }

  /** Resizing an empty vector fills it with the padding value. */
  lemma ResizeEmpty<T>(n: nat, pad: T)
    ensures Resize([], n, pad) == seq(n, _ => pad)
  {
  }

  /** One colour view per swapchain image, view i showing image i. */
  predicate ViewsWired(images: seq<Handle>, format: Format, views: seq<ImageView>)
  {
    |views| == |images| &&
    forall i :: 0 <= i < |views| ==>
      views[i].image == images[i] && views[i].format == format && views[i].aspectMask == ASPECT_COLOR
  }

  /** One framebuffer per view, framebuffer i attaching view i and the depth view
      and covering the swapchain extent. */
  predicate FramebuffersWired(views: seq<ImageView>, depthView: ImageView, extent: Extent2D, framebuffers: seq<Framebuffer>)
  {
    |framebuffers| == |views| &&
    forall i :: 0 <= i < |framebuffers| ==>
      framebuffers[i].colorAttachment == views[i].handle &&
      framebuffers[i].depthAttachment == depthView.handle &&
      framebuffers[i].extent == extent
  }

  /** One uniform buffer, its memory and one descriptor set per image, set i
      pointing at buffer i. */
  predicate DescriptorSetsWired(images: seq<Handle>, buffers: seq<Handle>, memory: seq<Handle>, sets: seq<DescriptorSet>)
  {
    |buffers| == |images| && |memory| == |images| && |sets| == |images| &&
    forall i :: 0 <= i < |sets| ==> sets[i].uniformBuffer == buffers[i]
  }

  /** One command buffer per framebuffer, buffer i rendering into framebuffer i with
      descriptor set i over the swapchain extent. */
  predicate CommandBuffersWired(framebuffers: seq<Framebuffer>, sets: seq<DescriptorSet>, extent: Extent2D, commandBuffers: seq<CommandBuffer>)
  {
    |commandBuffers| == |framebuffers| && |framebuffers| <= |sets| &&
    forall i :: 0 <= i < |commandBuffers| ==>
      commandBuffers[i].framebuffer == framebuffers[i].handle &&
      commandBuffers[i].descriptorSet == sets[i].handle &&
      commandBuffers[i].renderArea == extent
  }

  /** The swapchain exists and its recorded format and extent are the ones it was
      created with. */
  predicate SwapchainRecorded(swapChain: Option<Swapchain>, format: Format, extent: Extent2D)
  {
    swapChain.Some? && format == swapChain.value.createInfo.imageFormat && extent == swapChain.value.createInfo.imageExtent
  }

  /** The depth view shows the depth image, in the depth format of the device,
      with the depth aspect. */
  predicate DepthBufferReady(gpu: PhysicalDevice, depthImage: Handle, depthView: ImageView)
  {
    FindDepthFormat(gpu.formatProperties) == Ok(depthView.format) &&
    depthView.image == depthImage && depthView.aspectMask == ASPECT_DEPTH
  }

  class HelloTriangleApplication {
    const gpu: PhysicalDevice

    // swapchain and the per-image resources
    var swapChain: Option<Swapchain>
    var swapchainImages: seq<Handle>
    var swapchainImageFormat: Format
    var swapchainExtent: Extent2D
    var swapchainImageViews: seq<ImageView>
    var swapchainFramebuffers: seq<Framebuffer>
    var commandBuffers: seq<CommandBuffer>
    var uniformBuffers: seq<Handle>
    var uniformBuffersMemory: seq<Handle>
    var descriptorSets: seq<DescriptorSet>

    // depth buffer
    var depthImage: Handle
    var depthImageMemory: Handle
    var depthImageView: ImageView
    var depthTransition: Barrier

    /** The per-slot synchronisation objects: img_available, render_finished and
        in_flight_fences. */
    var sync: SyncObjects

    /** What draw() reads and changes: current_frame, framebuf_resized and
        images_in_flight, with what the CPU knows of fences and the logs of the
        commands it issued. */
    var frame: FrameState

    /** The next handle the device hands out. */
    var nextHandle: nat

    /** What the chosen device guarantees and every rebuild relies on: both queue
        families exist and some depth candidate is supported. */
    predicate DeviceReady()
    {
      IsComplete(gpu.queueFamilies) && FindDepthFormat(gpu.formatProperties).Ok?
    }

    /** The swapchain-dependent part is complete and consistent. */
    predicate ChainValid()
      reads this`swapChain, this`swapchainImages, this`swapchainImageFormat, this`swapchainExtent,
            this`swapchainImageViews, this`depthImage, this`depthImageView, this`swapchainFramebuffers,
            this`uniformBuffers, this`uniformBuffersMemory, this`descriptorSets, this`commandBuffers
    {
      DeviceReady() &&
      SwapchainRecorded(swapChain, swapchainImageFormat, swapchainExtent) &&
      DepthBufferReady(gpu, depthImage, depthImageView) &&
      ViewsWired(swapchainImages, swapchainImageFormat, swapchainImageViews) &&
      FramebuffersWired(swapchainImageViews, depthImageView, swapchainExtent, swapchainFramebuffers) &&
      DescriptorSetsWired(swapchainImages, uniformBuffers, uniformBuffersMemory, descriptorSets) &&
      CommandBuffersWired(swapchainFramebuffers, descriptorSets, swapchainExtent, commandBuffers)
    }

    predicate Valid()
      reads this
    {
      FrameValid(frame, sync) && OwnershipMatchesLog(frame) && ChainValid()
    }

    /** The swapchain was built from `surface` with the choices of create_swapchain,
        as the first object created since handle `base`. */
    predicate ChainBuiltFrom(surface: Surface, base: nat)
      reads this`swapChain, this`swapchainImages
      requires |surface.formats| > 0 && IsComplete(gpu.queueFamilies)
    {
      var info := SwapchainInfoFor(surface.capabilities, surface.formats, surface.presentModes,
                                   surface.windowWidth, surface.windowHeight, gpu.queueFamilies);
      swapChain == Some(Swapchain(base, info.value)) &&
      |swapchainImages| == surface.grantedImageCount
    }

    /** The state of a newly constructed application (the member initialisers). */
    predicate Fresh()
      reads this
    {
      frame == FrameState(0, false, [], {}, [], [], []) &&
      sync == SyncObjects([], [], []) &&
      swapChain.None? && swapchainImages == [] && nextHandle == 1
    }

    constructor(gpu: PhysicalDevice)
      ensures this.gpu == gpu && Fresh()
      ensures swapchainImageFormat == FORMAT_UNDEFINED && swapchainExtent == Extent2D(0, 0)
      ensures swapchainImageViews == [] && swapchainFramebuffers == [] && commandBuffers == []
      ensures uniformBuffers == [] && uniformBuffersMemory == [] && descriptorSets == []
      ensures depthImage == NULL_HANDLE && depthImageMemory == NULL_HANDLE && depthImageView == NULL_VIEW
    {
      this.gpu := gpu;
      swapChain := None;
      swapchainImages := [];
      swapchainImageFormat := FORMAT_UNDEFINED;
      swapchainExtent := Extent2D(0, 0);
      swapchainImageViews := [];
      swapchainFramebuffers := [];
      commandBuffers := [];
      uniformBuffers := [];
      uniformBuffersMemory := [];
      descriptorSets := [];
      depthImage := NULL_HANDLE;
      depthImageMemory := NULL_HANDLE;
      depthImageView := NULL_VIEW;
      depthTransition := Barrier(0, 0, 0, 0, 0);
      sync := SyncObjects([], [], []);
      frame := FrameState(0, false, [], {}, [], [], []);
      nextHandle := 1;
    }

    /** A device object creation that succeeds. */
    method NewHandle() returns (h: Handle)
      modifies this`nextHandle
      ensures h == old(nextHandle) && nextHandle == old(nextHandle) + 1
    {
      h := nextHandle;
      nextHandle := nextHandle + 1;
    }

    /** create_swapchain: the create info the choice rules give, one new handle for
        the swapchain and then one per image the device grants. It throws (here: returns
        false, changing nothing) when a queue family is missing. */
    method CreateSwapchain(surface: Surface) returns (ok: bool)
      requires |surface.formats| > 0
      modifies this`swapChain, this`swapchainImages, this`swapchainImageFormat, this`swapchainExtent, this`nextHandle
      ensures var info := SwapchainInfoFor(surface.capabilities, surface.formats, surface.presentModes,
                                           surface.windowWidth, surface.windowHeight, gpu.queueFamilies);
        (ok <==> info.Ok?) &&
        (ok ==>
           swapChain == Some(Swapchain(old(nextHandle), info.value)) &&
           |swapchainImages| == surface.grantedImageCount &&
           (forall i :: 0 <= i < |swapchainImages| ==> swapchainImages[i] == old(nextHandle) + 1 + i) &&
           swapchainImageFormat == info.value.imageFormat &&
           swapchainExtent == info.value.imageExtent &&
           nextHandle == old(nextHandle) + 1 + surface.grantedImageCount)
      ensures ok ==> SwapchainRecorded(swapChain, swapchainImageFormat, swapchainExtent)
      ensures !ok ==> unchanged(this)
    {
      var info := SwapchainInfoFor(surface.capabilities, surface.formats, surface.presentModes,
                                   surface.windowWidth, surface.windowHeight, gpu.queueFamilies);
      if info.Err? {
        return false;
      }
      var h := NewHandle();
      swapChain := Some(Swapchain(h, info.value));
      var first := nextHandle;
      swapchainImages := seq(surface.grantedImageCount, i requires 0 <= i => first + i);
      nextHandle := nextHandle + surface.grantedImageCount;
      swapchainImageFormat := info.value.imageFormat;
      swapchainExtent := info.value.imageExtent;
      ok := true;
    }

    /** create_img_view. */
    method CreateImageView(image: Handle, format: Format, aspectMask: bv32) returns (view: ImageView)
      modifies this`nextHandle
      ensures view == ImageView(old(nextHandle), image, format, aspectMask)
      ensures nextHandle == old(nextHandle) + 1
    {
      var h := NewHandle();
      view := ImageView(h, image, format, aspectMask);
    }

    /** create_img_views: one colour view per swapchain image, in image order. */
    method CreateImageViews()
      modifies this`swapchainImageViews, this`nextHandle
      ensures |swapchainImageViews| == |swapchainImages|
      ensures forall i :: 0 <= i < |swapchainImages| ==>
        swapchainImageViews[i] == ImageView(old(nextHandle) + i, swapchainImages[i], swapchainImageFormat, ASPECT_COLOR)
      ensures nextHandle == old(nextHandle) + |swapchainImages|
      ensures ViewsWired(swapchainImages, swapchainImageFormat, swapchainImageViews)
    {
      swapchainImageViews := Resize(swapchainImageViews, |swapchainImages|, NULL_VIEW);
      var i := 0;
      while i < |swapchainImages|
        invariant 0 <= i <= |swapchainImages| && |swapchainImageViews| == |swapchainImages|
        invariant nextHandle == old(nextHandle) + i
        invariant forall j :: 0 <= j < i ==>
          swapchainImageViews[j] == ImageView(old(nextHandle) + j, swapchainImages[j], swapchainImageFormat, ASPECT_COLOR)
      {
        var view := CreateImageView(swapchainImages[i], swapchainImageFormat, ASPECT_COLOR);
        swapchainImageViews := swapchainImageViews[i := view];
        i := i + 1;
      }
    }

    /** create_depth_buffer: an image with its memory and a depth-aspect view in the
        format find_depth_fmt picks, moved to the depth-attachment layout. It throws
        (here: returns false, changing nothing) when no depth format is supported. */
    method CreateDepthBuffer() returns (ok: bool)
      modifies this`depthImage, this`depthImageMemory, this`depthImageView, this`depthTransition, this`nextHandle
      ensures var fmt := FindDepthFormat(gpu.formatProperties);
        (ok <==> fmt.Ok?) &&
        (ok ==>
           depthImage == old(nextHandle) && depthImageMemory == old(nextHandle) + 1 &&
           depthImageView == ImageView(old(nextHandle) + 2, depthImage, fmt.value, ASPECT_DEPTH) &&
           Ok(depthTransition) == TransitionImageLayout(fmt.value, LAYOUT_UNDEFINED, LAYOUT_DEPTH_STENCIL_ATTACHMENT_OPTIMAL) &&
           nextHandle == old(nextHandle) + 3)
      ensures ok ==> DepthBufferReady(gpu, depthImage, depthImageView)
      ensures !ok ==> unchanged(this)
    {
      var fmt := FindDepthFormat(gpu.formatProperties);
      if fmt.Err? {
        return false;
      }
      // create_img: the image, then its memory
      depthImage := NewHandle();
      depthImageMemory := NewHandle();
      depthImageView := CreateImageView(depthImage, fmt.value, ASPECT_DEPTH);
      DepthTransitionAccepted(gpu.formatProperties);
      var barrier := TransitionImageLayout(fmt.value, LAYOUT_UNDEFINED, LAYOUT_DEPTH_STENCIL_ATTACHMENT_OPTIMAL);
      depthTransition := barrier.value;
      ok := true;
    }

    /** create_framebuffers: one framebuffer per image view, attaching that view and
        the shared depth view, covering the swapchain extent. */
    method CreateFramebuffers()
      modifies this`swapchainFramebuffers, this`nextHandle
      ensures |swapchainFramebuffers| == |swapchainImageViews|
      ensures forall i :: 0 <= i < |swapchainImageViews| ==>
        swapchainFramebuffers[i] ==
          Framebuffer(old(nextHandle) + i, swapchainImageViews[i].handle, depthImageView.handle, swapchainExtent)
      ensures nextHandle == old(nextHandle) + |swapchainImageViews|
      ensures FramebuffersWired(swapchainImageViews, depthImageView, swapchainExtent, swapchainFramebuffers)
    {
      swapchainFramebuffers := Resize(swapchainFramebuffers, |swapchainImageViews|, NULL_FRAMEBUFFER);
      var i := 0;
      while i < |swapchainImageViews|
        invariant 0 <= i <= |swapchainImageViews| && |swapchainFramebuffers| == |swapchainImageViews|
        invariant nextHandle == old(nextHandle) + i
        invariant forall j :: 0 <= j < i ==>
          swapchainFramebuffers[j] ==
            Framebuffer(old(nextHandle) + j, swapchainImageViews[j].handle, depthImageView.handle, swapchainExtent)
      {
        var h := NewHandle();
        swapchainFramebuffers := swapchainFramebuffers[i := Framebuffer(h, swapchainImageViews[i].handle, depthImageView.handle, swapchainExtent)];
        i := i + 1;
      }
    }

    /** create_uniform_buf: one host-visible buffer and its memory per image. */
    method CreateUniformBuffers()
      modifies this`uniformBuffers, this`uniformBuffersMemory, this`nextHandle
      ensures |uniformBuffers| == |swapchainImages| && |uniformBuffersMemory| == |swapchainImages|
      ensures forall i :: 0 <= i < |swapchainImages| ==>
        uniformBuffers[i] == old(nextHandle) + 2 * i && uniformBuffersMemory[i] == old(nextHandle) + 2 * i + 1
      ensures nextHandle == old(nextHandle) + 2 * |swapchainImages|
    {
      uniformBuffers := Resize(uniformBuffers, |swapchainImages|, NULL_HANDLE);
      uniformBuffersMemory := Resize(uniformBuffersMemory, |swapchainImages|, NULL_HANDLE);
      var i := 0;
      while i < |swapchainImages|
        invariant 0 <= i <= |swapchainImages|
        invariant |uniformBuffers| == |swapchainImages| && |uniformBuffersMemory| == |swapchainImages|
        invariant nextHandle == old(nextHandle) + 2 * i
        invariant forall j :: 0 <= j < i ==>
          uniformBuffers[j] == old(nextHandle) + 2 * j && uniformBuffersMemory[j] == old(nextHandle) + 2 * j + 1
      {
        // create_buffer: the buffer, then its memory
        var buffer := NewHandle();
        var memory := NewHandle();
        uniformBuffers := uniformBuffers[i := buffer];
        uniformBuffersMemory := uniformBuffersMemory[i := memory];
        i := i + 1;
      }
    }

    /** create_descriptor_sets: one set per image, allocated together, then each
        written to point at the uniform buffer of its image. */
    method CreateDescriptorSets()
      requires |swapchainImages| <= |uniformBuffers|
      modifies this`descriptorSets, this`nextHandle
      ensures |descriptorSets| == |swapchainImages|
      ensures forall i :: 0 <= i < |swapchainImages| ==>
        descriptorSets[i] == DescriptorSet(old(nextHandle) + i, uniformBuffers[i])
      ensures nextHandle == old(nextHandle) + |swapchainImages|
      ensures |uniformBuffers| == |swapchainImages| && |uniformBuffersMemory| == |swapchainImages| ==> DescriptorSetsWired(swapchainImages, uniformBuffers, uniformBuffersMemory, descriptorSets)
    {
      var n := |swapchainImages|;
      var first := nextHandle;
      // resize to n, then vkAllocateDescriptorSets fills every entry
      descriptorSets := seq(n, i requires 0 <= i => DescriptorSet(first + i, NULL_HANDLE));
      nextHandle := nextHandle + n;
      var i := 0;
      while i < n
        invariant 0 <= i <= n && |descriptorSets| == n && nextHandle == first + n
        invariant forall j :: 0 <= j < n ==>
          descriptorSets[j] == DescriptorSet(first + j, if j < i then uniformBuffers[j] else NULL_HANDLE)
      {
        // vkUpdateDescriptorSets
        descriptorSets := descriptorSets[i := descriptorSets[i].(uniformBuffer := uniformBuffers[i])];
        i := i + 1;
      }
    }

    /** create_cmd_buffers: one command buffer per framebuffer, allocated together,
        then each recorded to render into its framebuffer with the descriptor set of
        the same index over the swapchain extent. */
    method CreateCommandBuffers()
      requires |swapchainFramebuffers| <= |descriptorSets|
      modifies this`commandBuffers, this`nextHandle
      ensures |commandBuffers| == |swapchainFramebuffers|
      ensures forall i :: 0 <= i < |swapchainFramebuffers| ==>
        commandBuffers[i] ==
          CommandBuffer(old(nextHandle) + i, swapchainFramebuffers[i].handle, descriptorSets[i].handle, swapchainExtent)
      ensures nextHandle == old(nextHandle) + |swapchainFramebuffers|
      ensures CommandBuffersWired(swapchainFramebuffers, descriptorSets, swapchainExtent, commandBuffers)
    {
      var n := |swapchainFramebuffers|;
      var first := nextHandle;
      // resize to n, then vkAllocateCommandBuffers fills every entry
      commandBuffers := seq(n, i requires 0 <= i => CommandBuffer(first + i, NULL_HANDLE, NULL_HANDLE, Extent2D(0, 0)));
      nextHandle := nextHandle + n;
      var i := 0;
      while i < n
        invariant 0 <= i <= n && |commandBuffers| == n && nextHandle == first + n
        invariant forall j :: 0 <= j < n ==>
          commandBuffers[j] ==
            if j < i then CommandBuffer(first + j, swapchainFramebuffers[j].handle, descriptorSets[j].handle, swapchainExtent)
            else CommandBuffer(first + j, NULL_HANDLE, NULL_HANDLE, Extent2D(0, 0))
      {
        // vkCmdBeginRenderPass ... vkCmdBindDescriptorSets ... vkEndCommandBuffer
        commandBuffers := commandBuffers[i := CommandBuffer(commandBuffers[i].handle, swapchainFramebuffers[i].handle,
                                                            descriptorSets[i].handle, swapchainExtent)];
        i := i + 1;
      }
    }

    /** create_sync: two semaphores and a fence created signalled for each of the
        MAX_FRAMES_IN_FLIGHT slots, and images_in_flight resized to the current
        image count, new entries null. */
    method CreateSync()
      modifies this`sync, this`frame, this`nextHandle
      ensures SyncValid(sync)
      ensures forall k :: 0 <= k < MAX_FRAMES_IN_FLIGHT ==>
        sync.imageAvailable[k] == old(nextHandle) + 3 * k &&
        sync.renderFinished[k] == old(nextHandle) + 3 * k + 1 &&
        sync.inFlightFences[k] == old(nextHandle) + 3 * k + 2
      ensures frame == old(frame).(imagesInFlight := Resize(old(frame.imagesInFlight), |swapchainImages|, None),
                                   signaled := old(frame.signaled) + set f | f in sync.inFlightFences)
      ensures nextHandle == old(nextHandle) + 3 * MAX_FRAMES_IN_FLIGHT
    {
      sync := SyncObjects(Resize(sync.imageAvailable, MAX_FRAMES_IN_FLIGHT, NULL_HANDLE),
                          Resize(sync.renderFinished, MAX_FRAMES_IN_FLIGHT, NULL_HANDLE),
                          Resize(sync.inFlightFences, MAX_FRAMES_IN_FLIGHT, NULL_HANDLE));
      frame := frame.(imagesInFlight := Resize(frame.imagesInFlight, |swapchainImages|, None));
      var k := 0;
      while k < MAX_FRAMES_IN_FLIGHT
        invariant 0 <= k <= MAX_FRAMES_IN_FLIGHT
        invariant SyncValid(sync)
        invariant nextHandle == old(nextHandle) + 3 * k
        invariant forall j :: 0 <= j < k ==>
          sync.imageAvailable[j] == old(nextHandle) + 3 * j &&
          sync.renderFinished[j] == old(nextHandle) + 3 * j + 1 &&
          sync.inFlightFences[j] == old(nextHandle) + 3 * j + 2
        invariant frame == old(frame).(imagesInFlight := Resize(old(frame.imagesInFlight), |swapchainImages|, None),
                                       signaled := old(frame.signaled) + set f | f in sync.inFlightFences[..k])
      {
        var available := NewHandle();
        var finished := NewHandle();
        var fence := NewHandle();
        ghost var before := sync.inFlightFences[..k];
        sync := SyncObjects(sync.imageAvailable[k := available], sync.renderFinished[k := finished],
                            sync.inFlightFences[k := fence]);
        assert sync.inFlightFences[..k + 1] == before + [fence];
        // VK_FENCE_CREATE_SIGNALED_BIT
        frame := frame.(signaled := frame.signaled + {fence});
        k := k + 1;
      }
      assert sync.inFlightFences[..k] == sync.inFlightFences;
    }

    /** The first half of the swapchain-dependent part, as init_vulkan and
        recreate_swapchain both build it: the swapchain, its image views and the depth
        buffer. It stops at the first creation that throws, so it succeeds exactly
        when the device has both queue families and a depth format. */
    method BuildSwapchain(surface: Surface) returns (ok: bool)
      requires |surface.formats| > 0
      modifies this`swapChain, this`swapchainImages, this`swapchainImageFormat, this`swapchainExtent,
               this`swapchainImageViews, this`depthImage, this`depthImageMemory, this`depthImageView,
               this`depthTransition, this`nextHandle
      ensures ok <==> DeviceReady()
      ensures ok ==>
        SwapchainRecorded(swapChain, swapchainImageFormat, swapchainExtent) &&
        ChainBuiltFrom(surface, old(nextHandle)) &&
        ViewsWired(swapchainImages, swapchainImageFormat, swapchainImageViews) &&
        DepthBufferReady(gpu, depthImage, depthImageView)
    {
      ok := CreateSwapchain(surface);
      if !ok {
        return;
      }
      assert ChainBuiltFrom(surface, old(nextHandle));
      CreateImageViews();
      ok := CreateDepthBuffer();
    }

    /** The second half: framebuffers, uniform buffers, descriptor sets and command
        buffers, each sized and wired from what the first half built. */
    method BuildPerImageResources()
      requires |swapchainImageViews| == |swapchainImages|
      modifies this`swapchainFramebuffers, this`uniformBuffers, this`uniformBuffersMemory,
               this`descriptorSets, this`commandBuffers, this`nextHandle
      ensures FramebuffersWired(swapchainImageViews, depthImageView, swapchainExtent, swapchainFramebuffers)
      ensures DescriptorSetsWired(swapchainImages, uniformBuffers, uniformBuffersMemory, descriptorSets)
      ensures CommandBuffersWired(swapchainFramebuffers, descriptorSets, swapchainExtent, commandBuffers)
    {
      CreateFramebuffers();
      CreateUniformBuffers();
      CreateDescriptorSets();
      CreateCommandBuffers();
    }

    /** init_vulkan, from the creation of the swapchain on, for a newly constructed
        application: the swapchain-dependent part, then the synchronisation objects.
        It throws (here: returns false) exactly when the device lacks a queue family
        or a depth format. Afterwards images_in_flight has one null entry per image,
        every fence is signalled and no frame has been drawn. */
    method InitVulkan(surface: Surface) returns (ok: bool)
      requires Fresh() && |surface.formats| > 0
      modifies this
      ensures ok <==> DeviceReady()
      ensures ok ==> Valid() && ChainBuiltFrom(surface, old(nextHandle))
      ensures ok ==> frame == InitialFrame(surface.grantedImageCount, sync.inFlightFences)
    {
      ok := BuildSwapchain(surface);
      if !ok {
        return;
      }
      BuildPerImageResources();
      CreateSync();
      ResizeEmpty<Option<Fence>>(|swapchainImages|, None);
      InitialFrameValid(|swapchainImages|, sync);
    }

    /** recreate_swapchain, once the window has a non-zero size: the
        swapchain-dependent part is rebuilt from what the surface reports now. The
        frame state and the synchronisation objects are left as they are; in
        particular images_in_flight keeps its length even when the new swapchain has
        a different number of images. */
    method RecreateSwapchain(surface: Surface)
      requires DeviceReady()
      requires |surface.formats| > 0 && surface.windowWidth != 0 && surface.windowHeight != 0
      modifies this`swapChain, this`swapchainImages, this`swapchainImageFormat, this`swapchainExtent,
               this`swapchainImageViews, this`depthImage, this`depthImageMemory, this`depthImageView,
               this`depthTransition, this`swapchainFramebuffers, this`uniformBuffers, this`uniformBuffersMemory,
               this`descriptorSets, this`commandBuffers, this`nextHandle
      ensures ChainValid() && ChainBuiltFrom(surface, old(nextHandle))
    {
      var created := BuildSwapchain(surface);
      BuildPerImageResources();
    }

    /** framebuf_resize_cb. */
    method FramebufferResizeCallback()
      modifies this`frame
      ensures frame == old(frame).(framebufferResized := true)
    {
      frame := frame.(framebufferResized := true);
    }

    /** vkWaitForFences with an infinite timeout. */
    method WaitForFence(f: Fence)
      modifies this`frame
      ensures frame == WaitFor(old(frame), f)
    {
      frame := frame.(waits := frame.waits + [f], signaled := frame.signaled + {f});
    }

    /** draw(): the frame step, then recreate_swapchain wherever the step asked for a
        rebuild. The rebuild touches none of the state the frame step reads or writes,
        so running it once the step is over leaves the same state as running it at the
        two places in the middle of draw() where the source calls it. The acquired
        index must lie inside the swapchain and inside images_in_flight; outside the
        latter the source indexes out of bounds. After a call that does not throw the
        object is valid again; a call that does not rebuild leaves the swapchain objects
        and the handle counter as they were. */
    method Draw(surface: Surface, input: DrawInput) returns (outcome: DrawOutcome)
      requires Valid()
      requires |surface.formats| > 0 && surface.windowWidth != 0 && surface.windowHeight != 0
      requires Acquired(input.acquire) ==>
        input.imageIndex < |swapchainImages| && input.imageIndex < |frame.imagesInFlight|
      modifies this`frame,
               this`swapChain, this`swapchainImages, this`swapchainImageFormat, this`swapchainExtent,
               this`swapchainImageViews, this`depthImage, this`depthImageMemory, this`depthImageView,
               this`depthTransition, this`swapchainFramebuffers, this`uniformBuffers, this`uniformBuffersMemory,
               this`descriptorSets, this`commandBuffers, this`nextHandle
      ensures (outcome, frame) == Tick(old(frame), sync, input)
      ensures !outcome.Failed? ==> Valid()
      ensures Rebuilds(outcome) ==> ChainBuiltFrom(surface, old(nextHandle))
      ensures !Rebuilds(outcome) ==>
        unchanged(this`swapChain, this`swapchainImages, this`swapchainImageFormat, this`swapchainExtent,
                  this`swapchainImageViews, this`depthImage, this`depthImageMemory, this`depthImageView,
                  this`depthTransition, this`swapchainFramebuffers, this`uniformBuffers, this`uniformBuffersMemory,
                  this`descriptorSets, this`commandBuffers, this`nextHandle)
    {
      outcome := FrameStep(input);
      if Rebuilds(outcome) {
        RecreateSwapchain(surface);
      }
    }

    /** draw() without its calls of recreate_swapchain: the wait on the slot's fence,
        the acquisition, the owner wait, the claim, the fence reset, the submission, the
        presentation request and the cursor advance, each exactly where draw() does it,
        returning where draw() returns or throws. */
    method FrameStep(input: DrawInput) returns (outcome: DrawOutcome)
      requires FrameValid(frame, sync) && IndexFits(|frame.imagesInFlight|, input) && OwnershipMatchesLog(frame)
      modifies this`frame
      ensures (outcome, frame) == Tick(old(frame), sync, input)
      ensures !outcome.Failed? ==> FrameValid(frame, sync) && OwnershipMatchesLog(frame)
    {
      TickKeepsOwnershipLog(frame, sync, input);
      TickKeepsSlotOwners(frame, sync, input);
      var slot := frame.currentFrame;
      var fence := sync.inFlightFences[slot];
      WaitForFence(fence);
      if input.acquire == OutOfDate {
        // recreate_swapchain(), then return
        return RebuiltOnAcquire;
      } else if !Acquired(input.acquire) {
        return Failed(AcquireFailed);
      }
      var idx := input.imageIndex;
      // a previous frame still owns this image: wait for its fence
      if frame.imagesInFlight[idx].Some? {
        WaitForFence(frame.imagesInFlight[idx].value);
      }
      frame := frame.(imagesInFlight := frame.imagesInFlight[idx := Some(fence)]);
      // vkResetFences
      frame := frame.(signaled := frame.signaled - {fence});
      if !input.submitOk {
        return Failed(SubmitFailed);
      }
      frame := frame.(submissions := frame.submissions + [SubmissionFor(sync, slot, idx)],
                      presentations := frame.presentations + [Presentation(idx, sync.renderFinished[slot])]);
      if input.present == OutOfDate || input.present == Suboptimal || frame.framebufferResized {
        frame := frame.(framebufferResized := false);
        // recreate_swapchain()
        outcome := Presented(true);
      } else if input.present != Success {
        return Failed(PresentFailed);
      } else {
        outcome := Presented(false);
      }
      frame := frame.(currentFrame := (frame.currentFrame + 1) % MAX_FRAMES_IN_FLIGHT);
    }
  }

  /** A window that grows its swapchain from two images to three on a rebuild: the
      rebuild leaves images_in_flight at two entries, so the next acquisition of
      image 2 would index it out of bounds. */
  method GrowingRebuildScenario() returns (tableLength: nat, imageCount: nat)
    ensures tableLength == 2 && imageCount == 3
  {
    var gpu := PhysicalDevice(QueueFamilyIndices(Some(0), Some(0)),
                              map[FORMAT_D32_SFLOAT := FormatProperties(0, FORMAT_FEATURE_DEPTH_STENCIL_ATTACHMENT, 0)]);
    var caps := SurfaceCapabilities(2, 0, Extent2D(800, 600), Extent2D(1, 1), Extent2D(4096, 4096), 1);
    var surface := Surface(caps, [PREFERRED_FORMAT], [PRESENT_MODE_FIFO], 800, 600, 2);
    var app := new HelloTriangleApplication(gpu);
    var ok := app.InitVulkan(surface);
    assert ok;
    var outcome := app.Draw(surface.(grantedImageCount := 3), DrawInput(OutOfDate, 0, true, Success));
    tableLength := |app.frame.imagesInFlight|;
    imageCount := |app.swapchainImages|;
  }
}
