/** Searches over what the physical device reports: memory types, format features,
    queue families and extensions, and the image-layout transition table used when an
    image is moved from one layout to another. */
module DeviceQuery {
  import opened Vk
  import opened SwapchainChoice

  // ---------------------------------------------------------------- memory types

  /** The first memoryTypeCount entries of VkPhysicalDeviceMemoryProperties, each
      given by its propertyFlags. */
  type MemoryTypes = s: seq<bv32> | |s| <= MAX_MEMORY_TYPES

  /** Bit i of the filter, tested as `type_filter & (1 << i)`. */
  predicate FilterAllows(typeFilter: bv32, i: nat)
    requires i < MAX_MEMORY_TYPES
  {
    typeFilter & (1 << i) != 0
  }

  /** Memory type i is allowed by the filter's bit i and has every requested property. */
  predicate SuitableMemoryType(typeFilter: bv32, types: MemoryTypes, props: bv32, i: nat)
    requires i < |types|
  {
    FilterAllows(typeFilter, i) && types[i] & props == props
  }

  /** The loop of find_mem_type from position `from`: the first suitable index, or
      |types| when there is none. */
  function FirstMemoryTypeFrom(typeFilter: bv32, types: MemoryTypes, props: bv32, from: nat): (k: nat)
    requires from <= |types|
    ensures from <= k <= |types|
    ensures k < |types| ==> SuitableMemoryType(typeFilter, types, props, k)
    ensures forall j :: from <= j < k ==> !SuitableMemoryType(typeFilter, types, props, j)
    decreases |types| - from
  {
    if from == |types| then from
    else if SuitableMemoryType(typeFilter, types, props, from) then from
    else FirstMemoryTypeFrom(typeFilter, types, props, from + 1)
  }

  /** find_mem_type: the smallest suitable memory type index; an error when no type
      is suitable. */
  function FindMemoryType(typeFilter: bv32, types: MemoryTypes, props: bv32): (r: Result<nat>)
    ensures r.Ok? ==> r.value < |types| && SuitableMemoryType(typeFilter, types, props, r.value)
    ensures r.Ok? ==> forall j :: 0 <= j < r.value ==> !SuitableMemoryType(typeFilter, types, props, j)
    ensures r.Err? <==> forall j :: 0 <= j < |types| ==> !SuitableMemoryType(typeFilter, types, props, j)
    ensures r.Err? ==> r.error == NoSuitableMemoryType
  {
    var k := FirstMemoryTypeFrom(typeFilter, types, props, 0);
    if k < |types| then Ok(k) else Err(NoSuitableMemoryType)
  }

  /** A filter with no bit set below memoryTypeCount admits no memory type, whatever
      properties are asked for. */
  lemma EmptyFilterFindsNothing(typeFilter: bv32, types: MemoryTypes, props: bv32)
    requires forall i: nat :: i < |types| ==> !FilterAllows(typeFilter, i)
    ensures FindMemoryType(typeFilter, types, props).Err?
  {
  }

  // ---------------------------------------------------------------- formats

  datatype FormatProperties = FormatProperties(linearTilingFeatures: bv32, optimalTilingFeatures: bv32, bufferFeatures: bv32)

  /** What vkGetPhysicalDeviceFormatProperties reports, per format; a format the
      table does not list reports no features at all. */
  type FormatQuery = map<Format, FormatProperties>

  const NO_FEATURES := FormatProperties(0, 0, 0)

  function PropertiesOf(query: FormatQuery, fmt: Format): (p: FormatProperties)
    ensures fmt !in query ==> p == NO_FEATURES
  {
    if fmt in query then query[fmt] else NO_FEATURES
  }

  /** The test inside find_supported_fmt: the features of the requested tiling contain
      every requested feature. A tiling other than LINEAR or OPTIMAL never passes. */
  predicate SupportsFeatures(query: FormatQuery, fmt: Format, tiling: ImageTiling, feats: bv32) {
    (tiling == TILING_LINEAR && PropertiesOf(query, fmt).linearTilingFeatures & feats == feats) ||
    (tiling == TILING_OPTIMAL && PropertiesOf(query, fmt).optimalTilingFeatures & feats == feats)
  }

  function FirstSupportedFrom(query: FormatQuery, candidates: seq<Format>, tiling: ImageTiling, feats: bv32, from: nat): (k: nat)
    requires from <= |candidates|
    ensures from <= k <= |candidates|
    ensures k < |candidates| ==> SupportsFeatures(query, candidates[k], tiling, feats)
    ensures forall j :: from <= j < k ==> !SupportsFeatures(query, candidates[j], tiling, feats)
    decreases |candidates| - from
  {
    if from == |candidates| then from
    else if SupportsFeatures(query, candidates[from], tiling, feats) then from
    else FirstSupportedFrom(query, candidates, tiling, feats, from + 1)
  }

  /** find_supported_fmt: the first candidate whose features for the requested tiling
      contain `feats`; an error when no candidate qualifies. */
  function FindSupportedFormat(query: FormatQuery, candidates: seq<Format>, tiling: ImageTiling, feats: bv32): (r: Result<Format>)
    ensures r.Ok? ==> exists k :: 0 <= k < |candidates| && r.value == candidates[k] &&
                                  SupportsFeatures(query, candidates[k], tiling, feats) &&
                                  forall j :: 0 <= j < k ==> !SupportsFeatures(query, candidates[j], tiling, feats)
    ensures r.Err? <==> forall j :: 0 <= j < |candidates| ==> !SupportsFeatures(query, candidates[j], tiling, feats)
    ensures r.Err? ==> r.error == NoSupportedFormat
  {
    var k := FirstSupportedFrom(query, candidates, tiling, feats, 0);
    if k < |candidates| then Ok(candidates[k]) else Err(NoSupportedFormat)
  }

  /** A tiling mode other than LINEAR and OPTIMAL finds no format. */
  lemma OtherTilingFindsNothing(query: FormatQuery, candidates: seq<Format>, tiling: ImageTiling, feats: bv32)
    requires tiling != TILING_LINEAR && tiling != TILING_OPTIMAL
    ensures FindSupportedFormat(query, candidates, tiling, feats) == Err(NoSupportedFormat)
  {
  }

  /** The depth formats find_depth_fmt tries, in order of preference. */
  const DEPTH_CANDIDATES: seq<Format> := [FORMAT_D32_SFLOAT, FORMAT_D32_SFLOAT_S8_UINT, FORMAT_D24_UNORM_S8_UINT]

  /** Whether a format can be a depth attachment with optimal tiling. */
  predicate DepthAttachable(query: FormatQuery, fmt: Format) {
    PropertiesOf(query, fmt).optimalTilingFeatures & FORMAT_FEATURE_DEPTH_STENCIL_ATTACHMENT != 0
  }

  /** find_depth_fmt: the first of D32_SFLOAT, D32_SFLOAT_S8_UINT and D24_UNORM_S8_UINT
      that can be an optimally tiled depth attachment, each case stated outright. */
  function FindDepthFormat(query: FormatQuery): (r: Result<Format>)
    ensures r == Ok(FORMAT_D32_SFLOAT) <==> DepthAttachable(query, FORMAT_D32_SFLOAT)
    ensures r == Ok(FORMAT_D32_SFLOAT_S8_UINT) <==>
      !DepthAttachable(query, FORMAT_D32_SFLOAT) && DepthAttachable(query, FORMAT_D32_SFLOAT_S8_UINT)
    ensures r == Ok(FORMAT_D24_UNORM_S8_UINT) <==>
      !DepthAttachable(query, FORMAT_D32_SFLOAT) && !DepthAttachable(query, FORMAT_D32_SFLOAT_S8_UINT) &&
      DepthAttachable(query, FORMAT_D24_UNORM_S8_UINT)
    ensures r == Err(NoSupportedFormat) <==>
      !DepthAttachable(query, FORMAT_D32_SFLOAT) && !DepthAttachable(query, FORMAT_D32_SFLOAT_S8_UINT) &&
      !DepthAttachable(query, FORMAT_D24_UNORM_S8_UINT)
  {
    DepthAttachableSupports(query, FORMAT_D32_SFLOAT);
    DepthAttachableSupports(query, FORMAT_D32_SFLOAT_S8_UINT);
    DepthAttachableSupports(query, FORMAT_D24_UNORM_S8_UINT);
    var k1 := FirstSupportedFrom(query, DEPTH_CANDIDATES, TILING_OPTIMAL, FORMAT_FEATURE_DEPTH_STENCIL_ATTACHMENT, 1);
    assert k1 == 1 <==> DepthAttachable(query, FORMAT_D32_SFLOAT_S8_UINT);
    var k2 := FirstSupportedFrom(query, DEPTH_CANDIDATES, TILING_OPTIMAL, FORMAT_FEATURE_DEPTH_STENCIL_ATTACHMENT, 2);
    assert k2 == 2 <==> DepthAttachable(query, FORMAT_D24_UNORM_S8_UINT);
    FindSupportedFormat(query, DEPTH_CANDIDATES, TILING_OPTIMAL, FORMAT_FEATURE_DEPTH_STENCIL_ATTACHMENT)
  }

  /** For the depth-attachment bit alone, a non-zero mask is the supported-features test. */
  lemma DepthAttachableSupports(query: FormatQuery, fmt: Format)
    ensures DepthAttachable(query, fmt) <==>
      SupportsFeatures(query, fmt, TILING_OPTIMAL, FORMAT_FEATURE_DEPTH_STENCIL_ATTACHMENT)
  {
  }

  /** has_stencil_component: the formats with an 8-bit stencil part, which are exactly
      the depth candidates find_depth_fmt falls back to. */
  function HasStencilComponent(fmt: Format): (b: bool)
    ensures b <==> fmt in DEPTH_CANDIDATES[1..]
  {
    fmt == FORMAT_D32_SFLOAT_S8_UINT || fmt == FORMAT_D24_UNORM_S8_UINT
  }

  /** Of the depth candidates, only the first lacks a stencil component. */
  lemma DepthCandidatesStencil(i: nat)
    requires i < |DEPTH_CANDIDATES|
    ensures HasStencilComponent(DEPTH_CANDIDATES[i]) <==> i != 0
    ensures !HasStencilComponent(FORMAT_R8G8B8A8_SRGB) && !HasStencilComponent(FORMAT_B8G8R8A8_SRGB)
  {
  }

  // ---------------------------------------------------------------- layout transitions

  /** The parts of the VkImageMemoryBarrier and vkCmdPipelineBarrier call that
      transition_img_layout decides. */
  datatype Barrier = Barrier(aspectMask: bv32, srcAccessMask: bv32, dstAccessMask: bv32, srcStage: bv32, dstStage: bv32)

  /** The three (old, new) layout pairs transition_img_layout accepts. */
  const SUPPORTED_TRANSITIONS: set<(ImageLayout, ImageLayout)> := {
    (LAYOUT_UNDEFINED, LAYOUT_TRANSFER_DST_OPTIMAL),
    (LAYOUT_TRANSFER_DST_OPTIMAL, LAYOUT_SHADER_READ_ONLY_OPTIMAL),
    (LAYOUT_UNDEFINED, LAYOUT_DEPTH_STENCIL_ATTACHMENT_OPTIMAL)
  }

  /** The aspect mask: DEPTH (plus STENCIL for formats with a stencil component) for a
      depth-target layout, COLOR otherwise. */
  function AspectFor(fmt: Format, newLayout: ImageLayout): bv32 {
    if newLayout == LAYOUT_DEPTH_STENCIL_ATTACHMENT_OPTIMAL then
      if HasStencilComponent(fmt) then ASPECT_DEPTH | ASPECT_STENCIL else ASPECT_DEPTH
    else ASPECT_COLOR
  }

  /** transition_img_layout's decision table. */
  function TransitionImageLayout(fmt: Format, oldLayout: ImageLayout, newLayout: ImageLayout): (r: Result<Barrier>)
    ensures r.Ok? <==> (oldLayout, newLayout) in SUPPORTED_TRANSITIONS
    ensures r.Err? ==> r.error == UnsupportedLayoutTransition
  {
    var aspect := AspectFor(fmt, newLayout);
    if oldLayout == LAYOUT_UNDEFINED && newLayout == LAYOUT_TRANSFER_DST_OPTIMAL then
      Ok(Barrier(aspect, ACCESS_NONE, ACCESS_TRANSFER_WRITE, STAGE_TOP_OF_PIPE, STAGE_TRANSFER))
    else if oldLayout == LAYOUT_TRANSFER_DST_OPTIMAL && newLayout == LAYOUT_SHADER_READ_ONLY_OPTIMAL then
      Ok(Barrier(aspect, ACCESS_TRANSFER_WRITE, ACCESS_SHADER_READ, STAGE_TRANSFER, STAGE_FRAGMENT_SHADER))
    else if oldLayout == LAYOUT_UNDEFINED && newLayout == LAYOUT_DEPTH_STENCIL_ATTACHMENT_OPTIMAL then
      Ok(Barrier(aspect, ACCESS_NONE,
                 ACCESS_DEPTH_STENCIL_ATTACHMENT_READ | ACCESS_DEPTH_STENCIL_ATTACHMENT_WRITE,
                 STAGE_TOP_OF_PIPE, STAGE_EARLY_FRAGMENT_TESTS))
    else Err(UnsupportedLayoutTransition)
  }

  /** Aspect bits of an accepted transition: DEPTH exactly for a depth-target layout,
      STENCIL exactly for a depth-target layout of a format with a stencil component,
      COLOR exactly otherwise. */
  lemma TransitionAspect(fmt: Format, oldLayout: ImageLayout, newLayout: ImageLayout)
    requires TransitionImageLayout(fmt, oldLayout, newLayout).Ok?
    ensures var a := TransitionImageLayout(fmt, oldLayout, newLayout).value.aspectMask;
      (a & ASPECT_DEPTH != 0 <==> newLayout == LAYOUT_DEPTH_STENCIL_ATTACHMENT_OPTIMAL) &&
      (a & ASPECT_STENCIL != 0 <==> newLayout == LAYOUT_DEPTH_STENCIL_ATTACHMENT_OPTIMAL && HasStencilComponent(fmt)) &&
      (a & ASPECT_COLOR != 0 <==> newLayout != LAYOUT_DEPTH_STENCIL_ATTACHMENT_OPTIMAL)
  {
  }

  /** The masks of each accepted transition: an upload target waits for nothing and
      makes transfer writes wait; a sampled texture waits for the transfer write and
      makes fragment-shader reads wait; a depth target waits for nothing and makes
      depth reads and writes of the early fragment tests wait. */
  lemma TransitionMasks(fmt: Format)
    ensures TransitionImageLayout(fmt, LAYOUT_UNDEFINED, LAYOUT_TRANSFER_DST_OPTIMAL)
            == Ok(Barrier(ASPECT_COLOR, ACCESS_NONE, ACCESS_TRANSFER_WRITE, STAGE_TOP_OF_PIPE, STAGE_TRANSFER))
    ensures TransitionImageLayout(fmt, LAYOUT_TRANSFER_DST_OPTIMAL, LAYOUT_SHADER_READ_ONLY_OPTIMAL)
            == Ok(Barrier(ASPECT_COLOR, ACCESS_TRANSFER_WRITE, ACCESS_SHADER_READ, STAGE_TRANSFER, STAGE_FRAGMENT_SHADER))
    ensures TransitionImageLayout(fmt, LAYOUT_UNDEFINED, LAYOUT_DEPTH_STENCIL_ATTACHMENT_OPTIMAL)
            == Ok(Barrier(if HasStencilComponent(fmt) then ASPECT_DEPTH | ASPECT_STENCIL else ASPECT_DEPTH,
                          ACCESS_NONE,
                          ACCESS_DEPTH_STENCIL_ATTACHMENT_READ | ACCESS_DEPTH_STENCIL_ATTACHMENT_WRITE,
                          STAGE_TOP_OF_PIPE, STAGE_EARLY_FRAGMENT_TESTS))
  {
  }

  /** The transition create_depth_buffer requests for the depth format it found is
      always accepted, so that call never throws. */
  lemma DepthTransitionAccepted(query: FormatQuery)
    requires FindDepthFormat(query).Ok?
    ensures TransitionImageLayout(FindDepthFormat(query).value, LAYOUT_UNDEFINED, LAYOUT_DEPTH_STENCIL_ATTACHMENT_OPTIMAL).Ok?
    ensures TransitionImageLayout(FindDepthFormat(query).value, LAYOUT_UNDEFINED, LAYOUT_DEPTH_STENCIL_ATTACHMENT_OPTIMAL).value.aspectMask
            == if FindDepthFormat(query).value == FORMAT_D32_SFLOAT then ASPECT_DEPTH else ASPECT_DEPTH | ASPECT_STENCIL
  {
  }

  // ---------------------------------------------------------------- queue families

  datatype QueueFamilyProperties = QueueFamilyProperties(queueFlags: bv32)

  predicate HasGraphics(f: QueueFamilyProperties) {
    f.queueFlags & QUEUE_GRAPHICS != 0
  }

  /** The last graphics family among the first n. */
  function LastGraphicsBefore(families: seq<QueueFamilyProperties>, n: nat): (r: Option<nat>)
    requires n <= |families|
    ensures r.Some? ==> r.value < n && HasGraphics(families[r.value]) &&
                        forall j :: r.value < j < n ==> !HasGraphics(families[j])
    ensures r.None? <==> forall j :: 0 <= j < n ==> !HasGraphics(families[j])
  {
    if n == 0 then None
    else if HasGraphics(families[n - 1]) then Some(n - 1)
    else LastGraphicsBefore(families, n - 1)
  }

  /** The last family among the first n that can present to the surface. */
  function LastPresentBefore(supportsPresent: nat -> bool, n: nat): (r: Option<nat>)
    ensures r.Some? ==> r.value < n && supportsPresent(r.value) &&
                        forall j :: r.value < j < n ==> !supportsPresent(j)
    ensures r.None? <==> forall j :: 0 <= j < n ==> !supportsPresent(j)
  {
    if n == 0 then None
    else if supportsPresent(n - 1) then Some(n - 1)
    else LastPresentBefore(supportsPresent, n - 1)
  }

  /** What find_queue_families holds after examining the first n families: each
      index is overwritten by every later match, so it is the last match so far. */
  function ScanUpTo(families: seq<QueueFamilyProperties>, supportsPresent: nat -> bool, n: nat): QueueFamilyIndices
    requires n <= |families|
  {
    QueueFamilyIndices(LastGraphicsBefore(families, n), LastPresentBefore(supportsPresent, n))
  }

  /** is_complete of the indices held after the first n families: both are known
      exactly when one of those families has graphics and one can present. */
  lemma ScanCompleteIff(families: seq<QueueFamilyProperties>, supportsPresent: nat -> bool, n: nat)
    requires n <= |families|
    ensures IsComplete(ScanUpTo(families, supportsPresent, n)) <==>
      (exists i :: 0 <= i < n && HasGraphics(families[i])) && (exists j :: 0 <= j < n && supportsPresent(j))
  {
  }

  /** How many families find_queue_families examines when it starts at `from`: it
      stops right after the first family at which both indices are known. */
  function ExaminedFrom(families: seq<QueueFamilyProperties>, supportsPresent: nat -> bool, from: nat): (n: nat)
    requires from <= |families|
    ensures from <= n <= |families|
    ensures n < |families| ==> n > 0 && IsComplete(ScanUpTo(families, supportsPresent, n))
    ensures forall m :: from < m < n ==> !IsComplete(ScanUpTo(families, supportsPresent, m))
    decreases |families| - from
  {
    if from == |families| then from
    else if IsComplete(ScanUpTo(families, supportsPresent, from + 1)) then from + 1
    else ExaminedFrom(families, supportsPresent, from + 1)
  }

  /** find_queue_families. `supportsPresent(i)` is the device's answer to
      vkGetPhysicalDeviceSurfaceSupportKHR for family i. */
  method FindQueueFamilies(families: seq<QueueFamilyProperties>, supportsPresent: nat -> bool) returns (r: QueueFamilyIndices)
    ensures r == ScanUpTo(families, supportsPresent, ExaminedFrom(families, supportsPresent, 0))
    ensures IsComplete(r) <==> (exists i :: 0 <= i < |families| && HasGraphics(families[i])) &&
                               (exists j :: 0 <= j < |families| && supportsPresent(j))
    ensures r.graphicsFamily.Some? ==> r.graphicsFamily.value < |families| && HasGraphics(families[r.graphicsFamily.value])
    ensures r.presentFamily.Some? ==> r.presentFamily.value < |families| && supportsPresent(r.presentFamily.value)
  {
    r := QueueFamilyIndices(None, None);
    var i := 0;
    while i < |families|
      invariant 0 <= i <= |families|
      invariant r == ScanUpTo(families, supportsPresent, i)
      invariant ExaminedFrom(families, supportsPresent, 0) == ExaminedFrom(families, supportsPresent, i)
    {
      if HasGraphics(families[i]) {
        r := r.(graphicsFamily := Some(i));
      }
      if supportsPresent(i) {
        r := r.(presentFamily := Some(i));
      }
      if IsComplete(r) {
        break;
      }
      i := i + 1;
    }
    ghost var n := ExaminedFrom(families, supportsPresent, 0);
    if IsComplete(r) {
      assert HasGraphics(families[r.graphicsFamily.value]) && supportsPresent(r.presentFamily.value);
    } else {
      assert n == |families|;
    }
  }

  // ---------------------------------------------------------------- device extensions

  /** device_ext: the extensions the renderer needs from the device. */
  const DEVICE_EXTENSIONS: seq<string> := ["VK_KHR_swapchain"]

  /** check_device_ext_support: every required extension name occurs among the names
      the device reports. */
  method CheckDeviceExtensionSupport(available: seq<string>) returns (r: bool)
    ensures r <==> forall e :: e in DEVICE_EXTENSIONS ==> e in available
  {
    var required := set e | e in DEVICE_EXTENSIONS;
    for i := 0 to |available|
      invariant required == (set e | e in DEVICE_EXTENSIONS) - (set e | e in available[..i])
    {
      assert available[..i + 1] == available[..i] + [available[i]];
      required := required - {available[i]};
    }
    assert available[..|available|] == available;
    r := required == {};
    assert r ==> forall e :: e in DEVICE_EXTENSIONS ==> e in available;
    assert !r ==> exists e :: e in required;
  }
}
