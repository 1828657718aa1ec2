/**
 * The order in which `Init` creates the renderer's driver objects and
 * `Destroy` releases them, and the dependency discipline those orders keep.
 */
module Lifecycle {

  datatype ShaderStage = Vertex | Fragment

  /** The driver objects the renderer creates; views and framebuffers by swapchain image index. */
  datatype Obj =
    | Instance
    | DebugMessenger
    | Surface
    | Device
    | SwapChain
    | ImageView(image: nat)
    | RenderPass
    | ShaderModule(stage: ShaderStage)
    | PipelineLayout
    | Pipeline
    | Framebuffer(image: nat)
    | CommandPool
    | CommandBuffer
    | ImageAvailableSemaphore
    | RenderFinishedSemaphore
    | InFlightFence

  datatype Event = Create(obj: Obj) | Destroy(obj: Obj)

  /** The objects an object is created from and must not outlive. */
  function Parents(o: Obj): set<Obj> {
    match o
    case Instance => {}
    case DebugMessenger => {Instance}
    case Surface => {Instance}
    case Device => {Instance}
    case SwapChain => {Device, Surface}
    case ImageView(i) => {Device, SwapChain}
    case RenderPass => {Device}
    case ShaderModule(_) => {Device}
    case PipelineLayout => {Device}
    case Pipeline => {Device, PipelineLayout, RenderPass}
    case Framebuffer(i) => {Device, RenderPass, ImageView(i)}
    case CommandPool => {Device}
    case CommandBuffer => {CommandPool}
    case ImageAvailableSemaphore => {Device}
    case RenderFinishedSemaphore => {Device}
    case InFlightFence => {Device}
  }

  /** A command buffer is released together with the pool it was allocated from. */
  predicate FreedWithParent(o: Obj) {
    o == CommandBuffer
  }

  /** `CreateInstance`, `SetupDebugMessenger` (only with validation layers), `CreateSurface`, `CreateLogicalDevice`. */
  function DeviceEvents(validation: bool): seq<Event> {
    [Create(Instance)] + (if validation then [Create(DebugMessenger)] else []) + [Create(Surface), Create(Device)]
  }

  /** The device objects, then `CreateSwapChain`. */
  function CoreEvents(validation: bool): seq<Event> {
    DeviceEvents(validation) + [Create(SwapChain)]
  }

  /** `CreateImageViews`: one view per swapchain image, in index order. */
  function ImageViewEvents(n: nat): seq<Event> {
    seq(n, i requires 0 <= i => Create(ImageView(i)))
  }

  /**
   * `CreateRenderPass` and `CreateGraphicsPipeline`; the two shader modules
   * are destroyed as soon as the pipeline exists.
   */
  function PipelineEvents(): seq<Event> {
    [Create(RenderPass)] + GraphicsPipelineEvents()
  }

  /** `CreateGraphicsPipeline`: both shader modules, the layout, the pipeline, then the modules go, fragment first. */
  function GraphicsPipelineEvents(): seq<Event> {
    [Create(ShaderModule(Vertex)), Create(ShaderModule(Fragment)), Create(PipelineLayout), Create(Pipeline),
     Destroy(ShaderModule(Fragment)), Destroy(ShaderModule(Vertex))]
  }

  /** `CreateFrameBuffers`: one framebuffer per image view, in index order. */
  function FramebufferEvents(n: nat): seq<Event> {
    seq(n, i requires 0 <= i => Create(Framebuffer(i)))
  }

  /** `CreateCommandPool`, `CreateCommandBuffer`, `CreateSyncObjects`. */
  function CommandAndSyncEvents(): seq<Event> {
    [Create(CommandPool), Create(CommandBuffer)] + SyncObjectEvents()
  }

  /** `CreateSyncObjects`: the image-available semaphore, the render-finished semaphore, the in-flight fence. */
  function SyncObjectEvents(): seq<Event> {
    [Create(ImageAvailableSemaphore), Create(RenderFinishedSemaphore), Create(InFlightFence)]
  }

  /** `CreateSwapChain` up to `CreateFrameBuffers`, for a swapchain of `n` images. */
  function SwapChainObjectEvents(n: nat): seq<Event> {
    [Create(SwapChain)] + ImageViewEvents(n) + PipelineEvents() + FramebufferEvents(n)
  }

  /** Everything a complete `Init` does, for a swapchain of `n` images. */
  function InitEvents(validation: bool, n: nat): seq<Event> {
    CoreEvents(validation) + ImageViewEvents(n) + PipelineEvents() + FramebufferEvents(n) + CommandAndSyncEvents()
  }

  /** The framebuffer loop of `Destroy`, in index order. */
  function FramebufferTeardown(n: nat): seq<Event> {
    seq(n, i requires 0 <= i => Destroy(Framebuffer(i)))
  }

  /** The image-view loop of `Destroy`, in index order. */
  function ImageViewTeardown(n: nat): seq<Event> {
    seq(n, i requires 0 <= i => Destroy(ImageView(i)))
  }

  /** `Init` in three phases: the device objects, the swapchain objects, the command and synchronization objects. */
  lemma InitEventsByPhase(validation: bool, n: nat)
    ensures InitEvents(validation, n) == DeviceEvents(validation) + SwapChainObjectEvents(n) + CommandAndSyncEvents()
  {
  }

  /** A framebuffer that cannot be made leaves a proper prefix of a complete `Init`. */
  lemma {:induction false} FramebufferFailureStopsEarly(validation: bool, n: nat, f: nat)
    requires f < n
    ensures DeviceEvents(validation) + ([Create(SwapChain)] + ImageViewEvents(n) + PipelineEvents()) + FramebufferEvents(f)
      < InitEvents(validation, n)
  {
    var made := [Create(SwapChain)] + ImageViewEvents(n) + PipelineEvents();
    assert FramebufferEvents(f) == FramebufferEvents(n)[..f];
    StopsWithin(made, FramebufferEvents(f), FramebufferEvents(n), []);
    StopsWithin(DeviceEvents(validation), made + FramebufferEvents(f), SwapChainObjectEvents(n), CommandAndSyncEvents());
    assert DeviceEvents(validation) + made + FramebufferEvents(f) == DeviceEvents(validation) + (made + FramebufferEvents(f));
  }

  /** Stopping early within one phase leaves a proper prefix of the whole sequence. */
  lemma {:induction false} StopsWithin(before: seq<Event>, done: seq<Event>, phase: seq<Event>, after: seq<Event>)
    requires done < phase
    ensures before + done < before + phase + after
  {
    var whole := before + phase + after;
    assert (before + done) == whole[..|before + done|] by {
      forall k | 0 <= k < |before + done|
        ensures (before + done)[k] == whole[k]
      {
        if k >= |before| {
          assert done[k - |before|] == phase[k - |before|];
        }
      }
    }
  }

  /** The end of `Destroy`: the swapchain, the device, the debug messenger, the surface, the instance. */
  function TeardownBack(validation: bool): seq<Event> {
    [Destroy(SwapChain), Destroy(Device)] +
    (if validation then [Destroy(DebugMessenger)] else []) +
    [Destroy(Surface), Destroy(Instance)]
  }

  /** `Destroy`, for `framebuffers` framebuffers and `views` image views. */
  function TeardownEvents(validation: bool, framebuffers: nat, views: nat): seq<Event> {
    [Destroy(RenderFinishedSemaphore), Destroy(ImageAvailableSemaphore), Destroy(InFlightFence), Destroy(CommandPool)] +
    FramebufferTeardown(framebuffers) +
    [Destroy(Pipeline), Destroy(PipelineLayout), Destroy(RenderPass)] +
    ImageViewTeardown(views) +
    TeardownBack(validation)
  }

  /** The whole life of a renderer: a complete `Init` followed by `Destroy`. */
  function Lifetime(validation: bool, n: nat): seq<Event> {
    InitEvents(validation, n) + TeardownEvents(validation, n, n)
  }

  /** Every object is created after the objects it is created from. */
  ghost predicate CreatesParentsFirst(events: seq<Event>) {
    forall i, p :: 0 <= i < |events| && events[i].Create? && p in Parents(events[i].obj) ==> Create(p) in events[..i]
  }

  /** An object is destroyed only after every object created from it (other than those freed with it). */
  ghost predicate DestroysChildrenFirst(events: seq<Event>) {
    forall i, c ::
      (0 <= i < |events| && events[i].Destroy? && events[i].obj in Parents(c) &&
       Create(c) in events && !FreedWithParent(c)) ==> Destroy(c) in events[..i]
  }

  /** Every created object (other than those freed with their parent) is destroyed, and only after its creation. */
  ghost predicate ReleasesEverything(events: seq<Event>) {
    && (forall o :: Create(o) in events && !FreedWithParent(o) ==> Destroy(o) in events)
    && (forall i :: 0 <= i < |events| && events[i].Destroy? ==> Create(events[i].obj) in events[..i])
  }

  /** No event occurs twice: nothing is created twice or destroyed twice. */
  ghost predicate NoRepeats(events: seq<Event>) {
    forall i, j :: 0 <= i < j < |events| ==> events[i] != events[j]
  }

  /** The objects a complete `Init` creates. */
  predicate Created(validation: bool, n: nat, o: Obj) {
    match o
    case DebugMessenger => validation
    case ImageView(i) => i < n
    case Framebuffer(i) => i < n
    case _ => true
  }

  /** Where `Lifetime(validation, n)` creates `o`. */
  function CreatedAt(validation: bool, n: nat, o: Obj): nat
    requires Created(validation, n, o)
  {
    var d := if validation then 1 else 0;
    match o
    case Instance => 0
    case DebugMessenger => 1
    case Surface => 1 + d
    case Device => 2 + d
    case SwapChain => 3 + d
    case ImageView(i) => 4 + d + i
    case RenderPass => 4 + d + n
    case ShaderModule(Vertex) => 5 + d + n
    case ShaderModule(Fragment) => 6 + d + n
    case PipelineLayout => 7 + d + n
    case Pipeline => 8 + d + n
    case Framebuffer(i) => 11 + d + n + i
    case CommandPool => 11 + d + 2 * n
    case CommandBuffer => 12 + d + 2 * n
    case ImageAvailableSemaphore => 13 + d + 2 * n
    case RenderFinishedSemaphore => 14 + d + 2 * n
    case InFlightFence => 15 + d + 2 * n
  }

  /** Where `Lifetime(validation, n)` destroys `o`. */
  function DestroyedAt(validation: bool, n: nat, o: Obj): nat
    requires Created(validation, n, o) && !FreedWithParent(o)
  {
    var d := if validation then 1 else 0;
    var t := 16 + d + 2 * n;
    match o
    case ShaderModule(Fragment) => 9 + d + n
    case ShaderModule(Vertex) => 10 + d + n
    case RenderFinishedSemaphore => t
    case ImageAvailableSemaphore => t + 1
    case InFlightFence => t + 2
    case CommandPool => t + 3
    case Framebuffer(i) => t + 4 + i
    case Pipeline => t + 4 + n
    case PipelineLayout => t + 5 + n
    case RenderPass => t + 6 + n
    case ImageView(i) => t + 7 + n + i
    case SwapChain => t + 7 + 2 * n
    case Device => t + 8 + 2 * n
    case DebugMessenger => t + 9 + 2 * n
    case Surface => t + 9 + d + 2 * n
    case Instance => t + 10 + d + 2 * n
  }

  /** `e` happens at position `k` of `Lifetime(validation, n)` according to `CreatedAt` and `DestroyedAt`. */
  predicate Placed(validation: bool, n: nat, e: Event, k: nat) {
    && Created(validation, n, e.obj)
    && (e.Create? ==> k == CreatedAt(validation, n, e.obj))
    && (e.Destroy? ==> !FreedWithParent(e.obj) && k == DestroyedAt(validation, n, e.obj))
  }

  lemma CoreAt(validation: bool, n: nat, j: nat)
    requires j < |CoreEvents(validation)|
    ensures Placed(validation, n, CoreEvents(validation)[j], j)
  {
  }

  lemma PipelineAt(validation: bool, n: nat, j: nat)
    requires j < |PipelineEvents()|
    ensures Placed(validation, n, PipelineEvents()[j], 4 + (if validation then 1 else 0) + n + j)
  {
  }

  lemma CommandAndSyncAt(validation: bool, n: nat, j: nat)
    requires j < |CommandAndSyncEvents()|
    ensures Placed(validation, n, CommandAndSyncEvents()[j], 11 + (if validation then 1 else 0) + 2 * n + j)
  {
  }

  /** Position by position, a complete `Init` does what `CreatedAt` and `DestroyedAt` say. */
  lemma {:induction false} InitAt(validation: bool, n: nat, k: nat)
    requires k < |InitEvents(validation, n)|
    ensures |InitEvents(validation, n)| == 16 + (if validation then 1 else 0) + 2 * n
    ensures Placed(validation, n, InitEvents(validation, n)[k], k)
  {
    var d := if validation then 1 else 0;
    var core := CoreEvents(validation);
    var withViews := core + ImageViewEvents(n);
    var withPipeline := withViews + PipelineEvents();
    var withFramebuffers := withPipeline + FramebufferEvents(n);
    var init := withFramebuffers + CommandAndSyncEvents();
    assert init == InitEvents(validation, n);
    assert |core| == 4 + d;
    if k < |withFramebuffers| {
      assert init[k] == withFramebuffers[k];
      if k < |withPipeline| {
        assert withFramebuffers[k] == withPipeline[k];
        if k < |withViews| {
          assert withPipeline[k] == withViews[k];
          if k < |core| {
            assert withViews[k] == core[k];
            CoreAt(validation, n, k);
          } else {
            assert withViews[k] == ImageViewEvents(n)[k - |core|];
          }
        } else {
          assert withPipeline[k] == PipelineEvents()[k - |withViews|];
          PipelineAt(validation, n, k - |withViews|);
        }
      } else {
        assert withFramebuffers[k] == FramebufferEvents(n)[k - |withPipeline|];
      }
    } else {
      assert init[k] == CommandAndSyncEvents()[k - |withFramebuffers|];
      CommandAndSyncAt(validation, n, k - |withFramebuffers|);
    }
  }

  lemma TeardownFrontAt(validation: bool, n: nat, j: nat)
    requires j < 4
    ensures Placed(validation, n,
      [Destroy(RenderFinishedSemaphore), Destroy(ImageAvailableSemaphore), Destroy(InFlightFence), Destroy(CommandPool)][j],
      16 + (if validation then 1 else 0) + 2 * n + j)
  {
  }

  lemma TeardownMiddleAt(validation: bool, n: nat, j: nat)
    requires j < 3
    ensures Placed(validation, n,
      [Destroy(Pipeline), Destroy(PipelineLayout), Destroy(RenderPass)][j],
      20 + (if validation then 1 else 0) + 3 * n + j)
  {
  }

  lemma TeardownBackAt(validation: bool, n: nat, j: nat)
    requires j < |TeardownBack(validation)|
    ensures Placed(validation, n, TeardownBack(validation)[j], 23 + (if validation then 1 else 0) + 4 * n + j)
  {
  }

  /** Position by position, `Destroy` does what `DestroyedAt` says up to the last pipeline object. */
  lemma {:induction false} TeardownAtBeforeImageViews(validation: bool, n: nat, j: nat)
    requires j < 7 + n
    ensures |TeardownEvents(validation, n, n)| == 11 + (if validation then 1 else 0) + 2 * n
    ensures Placed(validation, n, TeardownEvents(validation, n, n)[j], 16 + (if validation then 1 else 0) + 2 * n + j)
  {
    var front := [Destroy(RenderFinishedSemaphore), Destroy(ImageAvailableSemaphore), Destroy(InFlightFence), Destroy(CommandPool)];
    var middle := [Destroy(Pipeline), Destroy(PipelineLayout), Destroy(RenderPass)];
    var withFramebuffers := front + FramebufferTeardown(n);
    var withMiddle := withFramebuffers + middle;
    var teardown := withMiddle + (ImageViewTeardown(n) + TeardownBack(validation));
    assert teardown == TeardownEvents(validation, n, n);
    assert teardown[j] == withMiddle[j];
    if j < |withFramebuffers| {
      assert withMiddle[j] == withFramebuffers[j];
      if j < 4 {
        assert withFramebuffers[j] == front[j];
        TeardownFrontAt(validation, n, j);
      } else {
        assert withFramebuffers[j] == FramebufferTeardown(n)[j - 4];
      }
    } else {
      assert withMiddle[j] == middle[j - |withFramebuffers|];
      TeardownMiddleAt(validation, n, j - |withFramebuffers|);
    }
  }

  /** Position by position, `Destroy` does what `DestroyedAt` says from the first image view on. */
  lemma {:induction false} TeardownAtFromImageViews(validation: bool, n: nat, j: nat)
    requires 7 + n <= j < |TeardownEvents(validation, n, n)|
    ensures |TeardownEvents(validation, n, n)| == 11 + (if validation then 1 else 0) + 2 * n
    ensures Placed(validation, n, TeardownEvents(validation, n, n)[j], 16 + (if validation then 1 else 0) + 2 * n + j)
  {
    var before :=
      [Destroy(RenderFinishedSemaphore), Destroy(ImageAvailableSemaphore), Destroy(InFlightFence), Destroy(CommandPool)] +
      FramebufferTeardown(n) + [Destroy(Pipeline), Destroy(PipelineLayout), Destroy(RenderPass)];
    var withViews := before + ImageViewTeardown(n);
    var teardown := withViews + TeardownBack(validation);
    assert teardown == TeardownEvents(validation, n, n);
    assert |before| == 7 + n;
    if j < |withViews| {
      assert teardown[j] == withViews[j] == ImageViewTeardown(n)[j - |before|];
    } else {
      assert teardown[j] == TeardownBack(validation)[j - |withViews|];
      TeardownBackAt(validation, n, j - |withViews|);
    }
  }

  /** Position by position, `Destroy` after a complete `Init` does what `DestroyedAt` says. */
  lemma TeardownAt(validation: bool, n: nat, j: nat)
    requires j < |TeardownEvents(validation, n, n)|
    ensures |TeardownEvents(validation, n, n)| == 11 + (if validation then 1 else 0) + 2 * n
    ensures Placed(validation, n, TeardownEvents(validation, n, n)[j], 16 + (if validation then 1 else 0) + 2 * n + j)
  {
    if j < 7 + n {
      TeardownAtBeforeImageViews(validation, n, j);
    } else {
      TeardownAtFromImageViews(validation, n, j);
    }
  }

  /** The lifetime, event by event: what happens at each position. */
  lemma {:induction false} LifetimeAt(validation: bool, n: nat, k: nat)
    requires k < |Lifetime(validation, n)|
    ensures Placed(validation, n, Lifetime(validation, n)[k], k)
  {
    var init := InitEvents(validation, n);
    var life := Lifetime(validation, n);
    if k < |init| {
      InitAt(validation, n, k);
      assert life[k] == init[k];
    } else {
      TeardownAt(validation, n, k - |init|);
      assert life[k] == TeardownEvents(validation, n, n)[k - |init|];
    }
  }

  /** The objects `Init` creates before the first framebuffer. */
  predicate CreatedBeforeFramebuffers(o: Obj) {
    !(o.Framebuffer? || o.CommandPool? || o.CommandBuffer? || o.ImageAvailableSemaphore? ||
      o.RenderFinishedSemaphore? || o.InFlightFence?)
  }

  /** Each object created before the framebuffers is created where `CreatedAt` says. */
  lemma {:induction false} InitHasBeforeFramebuffers(validation: bool, n: nat, o: Obj)
    requires Created(validation, n, o) && CreatedBeforeFramebuffers(o)
    ensures CreatedAt(validation, n, o) < |InitEvents(validation, n)|
    ensures InitEvents(validation, n)[CreatedAt(validation, n, o)] == Create(o)
  {
    var core := CoreEvents(validation);
    var withViews := core + ImageViewEvents(n);
    var withPipeline := withViews + PipelineEvents();
    var init := withPipeline + (FramebufferEvents(n) + CommandAndSyncEvents());
    assert init == InitEvents(validation, n);
    assert |core| == 4 + (if validation then 1 else 0);
    var k := CreatedAt(validation, n, o);
    assert init[k] == withPipeline[k];
    if o.ImageView? {
      assert withPipeline[k] == withViews[k] == ImageViewEvents(n)[o.image];
    } else if o.RenderPass? || o.ShaderModule? || o.PipelineLayout? || o.Pipeline? {
      assert withPipeline[k] == PipelineEvents()[k - |withViews|];
    } else {
      assert withPipeline[k] == withViews[k] == core[k];
    }
  }

  /** Each object created from the first framebuffer on is created where `CreatedAt` says. */
  lemma {:induction false} InitHasFromFramebuffers(validation: bool, n: nat, o: Obj)
    requires Created(validation, n, o) && !CreatedBeforeFramebuffers(o)
    ensures CreatedAt(validation, n, o) < |InitEvents(validation, n)|
    ensures InitEvents(validation, n)[CreatedAt(validation, n, o)] == Create(o)
  {
    var before := CoreEvents(validation) + ImageViewEvents(n) + PipelineEvents();
    var withFramebuffers := before + FramebufferEvents(n);
    var init := withFramebuffers + CommandAndSyncEvents();
    assert init == InitEvents(validation, n);
    assert |before| == 11 + (if validation then 1 else 0) + n;
    var k := CreatedAt(validation, n, o);
    if o.Framebuffer? {
      assert init[k] == withFramebuffers[k] == FramebufferEvents(n)[o.image];
    } else {
      assert init[k] == CommandAndSyncEvents()[k - |withFramebuffers|];
    }
  }

  /** Each object of a complete `Init` is created where `CreatedAt` says. */
  lemma InitHas(validation: bool, n: nat, o: Obj)
    requires Created(validation, n, o)
    ensures CreatedAt(validation, n, o) < |InitEvents(validation, n)|
    ensures InitEvents(validation, n)[CreatedAt(validation, n, o)] == Create(o)
  {
    if CreatedBeforeFramebuffers(o) {
      InitHasBeforeFramebuffers(validation, n, o);
    } else {
      InitHasFromFramebuffers(validation, n, o);
    }
  }

  /** `CreateGraphicsPipeline` destroys both shader modules right after creating the pipeline. */
  lemma {:induction false} InitDestroysShaders(validation: bool, n: nat, stage: ShaderStage)
    ensures DestroyedAt(validation, n, ShaderModule(stage)) < |InitEvents(validation, n)|
    ensures InitEvents(validation, n)[DestroyedAt(validation, n, ShaderModule(stage))] == Destroy(ShaderModule(stage))
  {
    var d := if validation then 1 else 0;
    var withViews := CoreEvents(validation) + ImageViewEvents(n);
    var withPipeline := withViews + PipelineEvents();
    var init := withPipeline + FramebufferEvents(n) + CommandAndSyncEvents();
    assert init == InitEvents(validation, n);
    assert |CoreEvents(validation)| == 4 + d;
    var k := DestroyedAt(validation, n, ShaderModule(stage));
    assert init[k] == withPipeline[k] == PipelineEvents()[k - |withViews|];
  }

  /** The objects `Destroy` releases before the first image view. */
  predicate DestroyedBeforeImageViews(o: Obj) {
    o.RenderFinishedSemaphore? || o.ImageAvailableSemaphore? || o.InFlightFence? || o.CommandPool? ||
    o.Framebuffer? || o.Pipeline? || o.PipelineLayout? || o.RenderPass?
  }

  /** The objects `Destroy` releases before the image views are released where `DestroyedAt` says. */
  lemma {:induction false} TeardownHasBeforeImageViews(validation: bool, n: nat, o: Obj)
    requires Created(validation, n, o) && DestroyedBeforeImageViews(o)
    ensures var j := DestroyedAt(validation, n, o) - (16 + (if validation then 1 else 0) + 2 * n);
      0 <= j < |TeardownEvents(validation, n, n)| && TeardownEvents(validation, n, n)[j] == Destroy(o)
  {
    var front := [Destroy(RenderFinishedSemaphore), Destroy(ImageAvailableSemaphore), Destroy(InFlightFence), Destroy(CommandPool)];
    var middle := [Destroy(Pipeline), Destroy(PipelineLayout), Destroy(RenderPass)];
    var withFramebuffers := front + FramebufferTeardown(n);
    var withMiddle := withFramebuffers + middle;
    var teardown := withMiddle + (ImageViewTeardown(n) + TeardownBack(validation));
    assert teardown == TeardownEvents(validation, n, n);
    var j := DestroyedAt(validation, n, o) - (16 + (if validation then 1 else 0) + 2 * n);
    assert teardown[j] == withMiddle[j];
    if o.Framebuffer? {
      assert withMiddle[j] == withFramebuffers[j] == FramebufferTeardown(n)[o.image];
    } else if o.Pipeline? || o.PipelineLayout? || o.RenderPass? {
      assert withMiddle[j] == middle[j - |withFramebuffers|];
    } else {
      assert withMiddle[j] == withFramebuffers[j] == front[j];
    }
  }

  /** The image views and everything after them are released where `DestroyedAt` says. */
  lemma {:induction false} TeardownHasFromImageViews(validation: bool, n: nat, o: Obj)
    requires Created(validation, n, o) && !FreedWithParent(o) && !o.ShaderModule? && !DestroyedBeforeImageViews(o)
    ensures var j := DestroyedAt(validation, n, o) - (16 + (if validation then 1 else 0) + 2 * n);
      0 <= j < |TeardownEvents(validation, n, n)| && TeardownEvents(validation, n, n)[j] == Destroy(o)
  {
    var before :=
      [Destroy(RenderFinishedSemaphore), Destroy(ImageAvailableSemaphore), Destroy(InFlightFence), Destroy(CommandPool)] +
      FramebufferTeardown(n) + [Destroy(Pipeline), Destroy(PipelineLayout), Destroy(RenderPass)];
    var withViews := before + ImageViewTeardown(n);
    var teardown := withViews + TeardownBack(validation);
    assert teardown == TeardownEvents(validation, n, n);
    assert |before| == 7 + n;
    var j := DestroyedAt(validation, n, o) - (16 + (if validation then 1 else 0) + 2 * n);
    if o.ImageView? {
      assert teardown[j] == withViews[j] == ImageViewTeardown(n)[o.image];
    } else {
      assert teardown[j] == TeardownBack(validation)[j - |withViews|];
    }
  }

  /** After a complete `Init`, `Destroy` releases every remaining object where `DestroyedAt` says. */
  lemma TeardownHas(validation: bool, n: nat, o: Obj)
    requires Created(validation, n, o) && !FreedWithParent(o) && !o.ShaderModule?
    ensures var j := DestroyedAt(validation, n, o) - (16 + (if validation then 1 else 0) + 2 * n);
      0 <= j < |TeardownEvents(validation, n, n)| && TeardownEvents(validation, n, n)[j] == Destroy(o)
  {
    if DestroyedBeforeImageViews(o) {
      TeardownHasBeforeImageViews(validation, n, o);
    } else {
      TeardownHasFromImageViews(validation, n, o);
    }
  }

  /** Each object `Destroy` releases after a complete `Init` is destroyed where `DestroyedAt` says. */
  lemma {:induction false} LifetimeDestroys(validation: bool, n: nat, o: Obj)
    requires Created(validation, n, o) && !FreedWithParent(o)
    ensures DestroyedAt(validation, n, o) < |Lifetime(validation, n)|
    ensures Lifetime(validation, n)[DestroyedAt(validation, n, o)] == Destroy(o)
  {
    var init := InitEvents(validation, n);
    var life := Lifetime(validation, n);
    InitAt(validation, n, 0);
    var k := DestroyedAt(validation, n, o);
    if o.ShaderModule? {
      InitDestroysShaders(validation, n, o.stage);
      assert life[k] == init[k];
    } else {
      TeardownHas(validation, n, o);
      assert life[k] == TeardownEvents(validation, n, n)[k - |init|];
    }
  }

  /** Each object of a complete `Init` is created, and destroyed, at its own position. */
  lemma {:induction false} LifetimeHas(validation: bool, n: nat, o: Obj)
    requires Created(validation, n, o)
    ensures CreatedAt(validation, n, o) < |Lifetime(validation, n)|
    ensures Lifetime(validation, n)[CreatedAt(validation, n, o)] == Create(o)
    ensures !FreedWithParent(o) ==>
      DestroyedAt(validation, n, o) < |Lifetime(validation, n)| &&
      Lifetime(validation, n)[DestroyedAt(validation, n, o)] == Destroy(o)
  {
    InitHas(validation, n, o);
    assert Lifetime(validation, n)[CreatedAt(validation, n, o)] == InitEvents(validation, n)[CreatedAt(validation, n, o)];
    if !FreedWithParent(o) {
      LifetimeDestroys(validation, n, o);
    }
  }

  /** Parents are created earlier and destroyed later than their children. */
  lemma ParentOrder(validation: bool, n: nat, o: Obj, p: Obj)
    requires Created(validation, n, o) && p in Parents(o)
    ensures Created(validation, n, p)
    ensures CreatedAt(validation, n, p) < CreatedAt(validation, n, o)
    ensures !FreedWithParent(o) ==> DestroyedAt(validation, n, o) < DestroyedAt(validation, n, p)
  {
  }

  lemma {:induction false} LifetimeCreatesParentsFirst(validation: bool, n: nat)
    ensures CreatesParentsFirst(Lifetime(validation, n))
  {
    var life := Lifetime(validation, n);
    forall i, p | 0 <= i < |life| && life[i].Create? && p in Parents(life[i].obj)
      ensures Create(p) in life[..i]
    {
      LifetimeAt(validation, n, i);
      ParentOrder(validation, n, life[i].obj, p);
      LifetimeHas(validation, n, p);
      assert life[..i][CreatedAt(validation, n, p)] == Create(p);
    }
  }

  lemma {:induction false} LifetimeDestroysChildrenFirst(validation: bool, n: nat)
    ensures DestroysChildrenFirst(Lifetime(validation, n))
  {
    var life := Lifetime(validation, n);
    forall i, c | 0 <= i < |life| && life[i].Destroy? && life[i].obj in Parents(c) && Create(c) in life && !FreedWithParent(c)
      ensures Destroy(c) in life[..i]
    {
      LifetimeAt(validation, n, i);
      var k :| 0 <= k < |life| && life[k] == Create(c);
      LifetimeAt(validation, n, k);
      ParentOrder(validation, n, c, life[i].obj);
      LifetimeHas(validation, n, c);
      assert life[..i][DestroyedAt(validation, n, c)] == Destroy(c);
    }
  }

  /** Everything the lifetime creates, other than the command buffer, it also destroys. */
  lemma {:induction false} LifetimeDestroysWhatItCreates(validation: bool, n: nat)
    ensures forall o :: Create(o) in Lifetime(validation, n) && !FreedWithParent(o) ==> Destroy(o) in Lifetime(validation, n)
  {
    var life := Lifetime(validation, n);
    forall o | Create(o) in life && !FreedWithParent(o)
      ensures Destroy(o) in life
    {
      var k :| 0 <= k < |life| && life[k] == Create(o);
      LifetimeAt(validation, n, k);
      LifetimeHas(validation, n, o);
    }
  }

  /** Whatever the lifetime destroys it created earlier. */
  lemma {:induction false} LifetimeCreatesBeforeDestroying(validation: bool, n: nat)
    ensures forall i :: 0 <= i < |Lifetime(validation, n)| && Lifetime(validation, n)[i].Destroy? ==>
      Create(Lifetime(validation, n)[i].obj) in Lifetime(validation, n)[..i]
  {
    var life := Lifetime(validation, n);
    forall i | 0 <= i < |life| && life[i].Destroy?
      ensures Create(life[i].obj) in life[..i]
    {
      LifetimeAt(validation, n, i);
      var o := life[i].obj;
      LifetimeHas(validation, n, o);
      assert life[..i][CreatedAt(validation, n, o)] == Create(o);
    }
  }

  lemma {:induction false} LifetimeReleasesEverything(validation: bool, n: nat)
    ensures ReleasesEverything(Lifetime(validation, n))
  {
    LifetimeDestroysWhatItCreates(validation, n);
    LifetimeCreatesBeforeDestroying(validation, n);
  }

  lemma {:induction false} LifetimeHasNoRepeats(validation: bool, n: nat)
    ensures NoRepeats(Lifetime(validation, n))
  {
    var life := Lifetime(validation, n);
    forall i, j | 0 <= i < j < |life|
      ensures life[i] != life[j]
    {
      LifetimeAt(validation, n, i);
      LifetimeAt(validation, n, j);
    }
  }

  /**
   * A complete `Init` followed by `Destroy` creates every object after its
   * parents, destroys it before them, destroys every object it created exactly
   * once, and repeats nothing.
   */
  lemma LifetimeIsWellOrdered(validation: bool, n: nat)
    ensures CreatesParentsFirst(Lifetime(validation, n))
    ensures DestroysChildrenFirst(Lifetime(validation, n))
    ensures ReleasesEverything(Lifetime(validation, n))
    ensures NoRepeats(Lifetime(validation, n))
  {
    LifetimeCreatesParentsFirst(validation, n);
    LifetimeDestroysChildrenFirst(validation, n);
    LifetimeReleasesEverything(validation, n);
    LifetimeHasNoRepeats(validation, n);
  }

  /** Every two objects are destroyed in the reverse of the order they were created in. */
  ghost predicate LastInFirstOut(events: seq<Event>) {
    forall i, j, k, l ::
      (0 <= i < j < |events| && 0 <= k < |events| && 0 <= l < |events| &&
       events[i].Create? && events[j].Create? &&
       events[k] == Destroy(events[i].obj) && events[l] == Destroy(events[j].obj)) ==> l < k
  }

  /**
   * `Destroy` does not release objects in the exact reverse of their creation:
   * the fence, created after both semaphores, is destroyed after them.
   */
  lemma {:induction false} TeardownIsNotReverseOfCreation(validation: bool, n: nat)
    ensures !LastInFirstOut(Lifetime(validation, n))
  {
    var life := Lifetime(validation, n);
    LifetimeHas(validation, n, RenderFinishedSemaphore);
    LifetimeHas(validation, n, InFlightFence);
    var i, j := CreatedAt(validation, n, RenderFinishedSemaphore), CreatedAt(validation, n, InFlightFence);
    var k, l := DestroyedAt(validation, n, RenderFinishedSemaphore), DestroyedAt(validation, n, InFlightFence);
    assert life[i] == Create(RenderFinishedSemaphore) && life[j] == Create(InFlightFence);
    assert life[k] == Destroy(life[i].obj) && life[l] == Destroy(life[j].obj) && i < j && k < l;
  }

  /** The framebuffers and the image views are each released in the order they were created in, not the reverse. */
  lemma {:induction false} FramebuffersReleasedInCreationOrder(validation: bool, n: nat, a: nat, b: nat)
    requires a < b < n
    ensures CreatedAt(validation, n, Framebuffer(a)) < CreatedAt(validation, n, Framebuffer(b))
    ensures DestroyedAt(validation, n, Framebuffer(a)) < DestroyedAt(validation, n, Framebuffer(b))
    ensures Lifetime(validation, n)[CreatedAt(validation, n, Framebuffer(a))] == Create(Framebuffer(a))
    ensures Lifetime(validation, n)[DestroyedAt(validation, n, Framebuffer(b))] == Destroy(Framebuffer(b))
    ensures CreatedAt(validation, n, ImageView(a)) < CreatedAt(validation, n, ImageView(b))
    ensures DestroyedAt(validation, n, ImageView(a)) < DestroyedAt(validation, n, ImageView(b))
    ensures Lifetime(validation, n)[CreatedAt(validation, n, ImageView(a))] == Create(ImageView(a))
    ensures Lifetime(validation, n)[DestroyedAt(validation, n, ImageView(b))] == Destroy(ImageView(b))
  {
    LifetimeHas(validation, n, Framebuffer(a));
    LifetimeHas(validation, n, Framebuffer(b));
    LifetimeHas(validation, n, ImageView(a));
    LifetimeHas(validation, n, ImageView(b));
  }
}
