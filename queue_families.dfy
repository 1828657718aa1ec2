/**
 * Queue-family discovery (`FindQueueFamilies`) and the per-family queue
 * requests that `CreateLogicalDevice` builds from its result.
 */
module QueueFamilies {
  import opened Wrappers
  import opened Vulkan

  /** `QueueFamilyIndices`: the family chosen for graphics and the one chosen for presentation. */
  datatype QueueFamilyIndices = QueueFamilyIndices(graphicsFamily: Option<nat>, presentFamily: Option<nat>) {
    /** `isComplete`: both families hold a value. */
    predicate IsComplete() {
      graphicsFamily.Some? && presentFamily.Some?
    }
  }

  predicate SupportsGraphics(family: QueueFamily) {
    family.queueFlags & VK_QUEUE_GRAPHICS_BIT != 0
  }

  /** Some family of the device can run graphics commands. */
  ghost predicate HasGraphicsFamily(families: seq<QueueFamily>) {
    exists i :: 0 <= i < |families| && SupportsGraphics(families[i])
  }

  /** Some family of the device can present to the surface. */
  ghost predicate HasPresentFamily(families: seq<QueueFamily>) {
    exists i :: 0 <= i < |families| && families[i].presentSupport
  }

  function Max(a: nat, b: nat): nat {
    if a < b then b else a
  }

  /** One step of the scan: record index `i` for whatever it supports. */
  function RecordFamily(indices: QueueFamilyIndices, family: QueueFamily, i: nat): QueueFamilyIndices {
    var withGraphics := if SupportsGraphics(family) then indices.(graphicsFamily := Some(i)) else indices;
    if family.presentSupport then withGraphics.(presentFamily := Some(i)) else withGraphics
  }

  /** The scan of `FindQueueFamilies` from index `i` on, starting from `indices`. */
  function ScanFrom(families: seq<QueueFamily>, i: nat, indices: QueueFamilyIndices): QueueFamilyIndices
    requires i <= |families|
    decreases |families| - i
  {
    if i == |families| then indices
    else
      var recorded := RecordFamily(indices, families[i], i);
      if recorded.IsComplete() then recorded else ScanFrom(families, i + 1, recorded)
  }


  /** The scan finds both families from index `i` on exactly when the device has both kinds. */
  lemma {:induction false} ScanFromCompletes(families: seq<QueueFamily>, i: nat, indices: QueueFamilyIndices)
    requires i <= |families| && !indices.IsComplete()
    requires indices.graphicsFamily.Some? <==> exists k :: 0 <= k < i && SupportsGraphics(families[k])
    requires indices.presentFamily.Some? <==> exists k :: 0 <= k < i && families[k].presentSupport
    ensures ScanFrom(families, i, indices).IsComplete() <==> HasGraphicsFamily(families) && HasPresentFamily(families)
    decreases |families| - i
  {
    if i < |families| {
      var recorded := RecordFamily(indices, families[i], i);
      assert recorded.graphicsFamily.Some? <==> exists k :: 0 <= k < i + 1 && SupportsGraphics(families[k]);
      assert recorded.presentFamily.Some? <==> exists k :: 0 <= k < i + 1 && families[k].presentSupport;
      if recorded.IsComplete() {
        assert HasGraphicsFamily(families) && HasPresentFamily(families);
      } else {
        ScanFromCompletes(families, i + 1, recorded);
      }
    }
  }

  /**
   * What `FindQueueFamilies` returns for a device with these queue families:
   * `isComplete` holds of it exactly when the device has a graphics family and
   * a present family.
   */
  function QueueFamiliesOf(families: seq<QueueFamily>): (indices: QueueFamilyIndices)
    ensures indices.IsComplete() <==> HasGraphicsFamily(families) && HasPresentFamily(families)
  {
    ScanFromCompletes(families, 0, QueueFamilyIndices(None, None));
    ScanFrom(families, 0, QueueFamilyIndices(None, None))
  }

  /** The queue requests for `indices`: one request for a single queue per distinct family, in ascending family order. */
  ghost predicate OneQueuePerFamily(indices: QueueFamilyIndices, queueCreateInfos: seq<QueueCreateInfo>)
    requires indices.IsComplete()
  {
    && (|queueCreateInfos| == if indices.graphicsFamily == indices.presentFamily then 1 else 2)
    && (forall k :: 0 <= k < |queueCreateInfos| ==> queueCreateInfos[k].queueCount == 1)
    && (forall k :: 0 <= k < |queueCreateInfos| ==>
          queueCreateInfos[k].queueFamilyIndex in {indices.graphicsFamily.value, indices.presentFamily.value})
    && (exists k :: 0 <= k < |queueCreateInfos| && queueCreateInfos[k].queueFamilyIndex == indices.graphicsFamily.value)
    && (exists k :: 0 <= k < |queueCreateInfos| && queueCreateInfos[k].queueFamilyIndex == indices.presentFamily.value)
    && (forall k, l :: 0 <= k < l < |queueCreateInfos| ==>
          queueCreateInfos[k].queueFamilyIndex < queueCreateInfos[l].queueFamilyIndex)
  }

  /**
   * Scans the families in index order, recording at each index that supports
   * graphics (resp. presentation) that index as the graphics (resp. present)
   * family, and stops after the first index at which both have been recorded.
   * A later qualifying index overwrites an earlier one until the scan stops.
   */
  method FindQueueFamilies(families: seq<QueueFamily>) returns (indices: QueueFamilyIndices)
    ensures indices == QueueFamiliesOf(families)
    ensures indices.graphicsFamily.Some? ==>
      indices.graphicsFamily.value < |families| && SupportsGraphics(families[indices.graphicsFamily.value])
    ensures indices.presentFamily.Some? ==>
      indices.presentFamily.value < |families| && families[indices.presentFamily.value].presentSupport
    ensures indices.IsComplete() <==> HasGraphicsFamily(families) && HasPresentFamily(families)
    // the scan stops at the first index by which both kinds of family have been seen
    ensures indices.IsComplete() ==>
      var stop := Max(indices.graphicsFamily.value, indices.presentFamily.value);
      forall i, j :: 0 <= i < stop && 0 <= j < stop ==> !(SupportsGraphics(families[i]) && families[j].presentSupport)
    // what was recorded is the last qualifying index the scan visited
    ensures indices.IsComplete() ==>
      var stop := Max(indices.graphicsFamily.value, indices.presentFamily.value);
      forall i :: indices.graphicsFamily.value < i <= stop ==> !SupportsGraphics(families[i])
    ensures indices.IsComplete() ==>
      var stop := Max(indices.graphicsFamily.value, indices.presentFamily.value);
      forall i :: indices.presentFamily.value < i <= stop ==> !families[i].presentSupport
    ensures !indices.IsComplete() && indices.graphicsFamily.Some? ==>
      forall i :: indices.graphicsFamily.value < i < |families| ==> !SupportsGraphics(families[i])
    ensures !indices.IsComplete() && indices.presentFamily.Some? ==>
      forall i :: indices.presentFamily.value < i < |families| ==> !families[i].presentSupport
  {
    indices := QueueFamilyIndices(None, None);
    var i := 0;
    while i < |families|
      invariant i <= |families|
      invariant !indices.IsComplete()
      invariant indices.graphicsFamily.Some? ==>
        indices.graphicsFamily.value < i && SupportsGraphics(families[indices.graphicsFamily.value]) &&
        forall k :: indices.graphicsFamily.value < k < i ==> !SupportsGraphics(families[k])
      invariant indices.graphicsFamily.None? ==> forall k :: 0 <= k < i ==> !SupportsGraphics(families[k])
      invariant indices.presentFamily.Some? ==>
        indices.presentFamily.value < i && families[indices.presentFamily.value].presentSupport &&
        forall k :: indices.presentFamily.value < k < i ==> !families[k].presentSupport
      invariant indices.presentFamily.None? ==> forall k :: 0 <= k < i ==> !families[k].presentSupport
      invariant ScanFrom(families, i, indices) == QueueFamiliesOf(families)
    {
      ghost var before := indices;
      if SupportsGraphics(families[i]) {
        indices := indices.(graphicsFamily := Some(i));
      }
      if families[i].presentSupport {
        indices := indices.(presentFamily := Some(i));
      }
      assert indices == RecordFamily(before, families[i], i);
      if indices.IsComplete() {
        // one of the two was still missing before index i, so index i completed the pair
        assert Max(indices.graphicsFamily.value, indices.presentFamily.value) == i;
        assert before.graphicsFamily.None? || before.presentFamily.None?;
        return;
      }
      i := i + 1;
    }
  }

  /** `VkDeviceQueueCreateInfo`: one queue family and how many queues to create from it (priority 1.0 is not modelled). */
  datatype QueueCreateInfo = QueueCreateInfo(queueFamilyIndex: nat, queueCount: nat)

  /** The elements of `std::set<uint32_t>{graphics, present}` in the set's ascending iteration order. */
  function UniqueQueueFamilies(indices: QueueFamilyIndices): (families: seq<nat>)
    requires indices.IsComplete()
    ensures forall k :: 0 <= k < |families| - 1 ==> families[k] < families[k + 1]
    ensures forall f :: f in families <==> f == indices.graphicsFamily.value || f == indices.presentFamily.value
  {
    var g, p := indices.graphicsFamily.value, indices.presentFamily.value;
    if g == p then [g] else if g < p then [g, p] else [p, g]
  }

  /**
   * The queue requests of `CreateLogicalDevice`: one request for a single queue
   * per distinct family among the graphics and the present family.
   */
  method BuildQueueCreateInfos(indices: QueueFamilyIndices) returns (queueCreateInfos: seq<QueueCreateInfo>)
    requires indices.IsComplete()
    ensures |queueCreateInfos| == if indices.graphicsFamily == indices.presentFamily then 1 else 2
    ensures forall k :: 0 <= k < |queueCreateInfos| ==> queueCreateInfos[k].queueCount == 1
    ensures forall k :: 0 <= k < |queueCreateInfos| ==>
      queueCreateInfos[k].queueFamilyIndex in {indices.graphicsFamily.value, indices.presentFamily.value}
    ensures exists k :: 0 <= k < |queueCreateInfos| && queueCreateInfos[k].queueFamilyIndex == indices.graphicsFamily.value
    ensures exists k :: 0 <= k < |queueCreateInfos| && queueCreateInfos[k].queueFamilyIndex == indices.presentFamily.value
    ensures forall k, l :: 0 <= k < l < |queueCreateInfos| ==>
      queueCreateInfos[k].queueFamilyIndex < queueCreateInfos[l].queueFamilyIndex
  {
    var uniqueQueueFamilies := UniqueQueueFamilies(indices);
    queueCreateInfos := [];
    for k := 0 to |uniqueQueueFamilies|
      invariant |queueCreateInfos| == k
      invariant forall j :: 0 <= j < k ==> queueCreateInfos[j] == QueueCreateInfo(uniqueQueueFamilies[j], 1)
    {
      queueCreateInfos := queueCreateInfos + [QueueCreateInfo(uniqueQueueFamilies[k], 1)];
    }
    assert indices.graphicsFamily.value in uniqueQueueFamilies;
    assert indices.presentFamily.value in uniqueQueueFamilies;
  }
}
