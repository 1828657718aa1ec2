/**
 * Physical-device selection: the validation-layer check run before instance
 * creation, the device-extension check, `IsDeviceSuitable`, and the
 * first-suitable-device policy of `PickPhysicalDevice`.
 */
module DeviceSelection {
  import opened Wrappers
  import opened Vulkan
  import opened QueueFamilies

  /** `m_validationLayers`: the layers requested when validation is enabled. */
  const ValidationLayers: seq<string> := ["VK_LAYER_KHRONOS_validation"]

  /** `m_deviceExtensions`: the device extensions a device must offer (`VK_KHR_SWAPCHAIN_EXTENSION_NAME`). */
  const DeviceExtensions: seq<string> := ["VK_KHR_swapchain"]

  /** Every required name is among the available ones. */
  ghost predicate AllAvailable(required: seq<string>, available: seq<string>) {
    forall name :: name in required ==> name in available
  }

  /**
   * `CheckValidationLayerSupport`: looks each requested layer up among the
   * instance's layers and gives up at the first one that is missing.
   */
  method CheckValidationLayerSupport(requested: seq<string>, availableLayers: seq<string>) returns (supported: bool)
    ensures supported <==> AllAvailable(requested, availableLayers)
  {
    for r := 0 to |requested|
      invariant forall k :: 0 <= k < r ==> requested[k] in availableLayers
    {
      var layerFound := false;
      var a := 0;
      while a < |availableLayers| && !layerFound
        invariant a <= |availableLayers|
        invariant layerFound ==> requested[r] in availableLayers
        invariant !layerFound ==> forall k :: 0 <= k < a ==> availableLayers[k] != requested[r]
      {
        if requested[r] == availableLayers[a] {
          layerFound := true;
        }
        a := a + 1;
      }
      if !layerFound {
        assert requested[r] !in availableLayers;
        return false;
      }
    }
    return true;
  }

  /**
   * `CheckDeviceExtensionsSupport`: starts from the set of required names,
   * erases every name the device offers, and reports whether nothing is left.
   */
  method CheckDeviceExtensionsSupport(required: seq<string>, availableExtensions: seq<string>) returns (supported: bool)
    ensures supported <==> AllAvailable(required, availableExtensions)
  {
    var requiredExtensions: set<string> := set name | name in required;
    for k := 0 to |availableExtensions|
      invariant forall name :: name in requiredExtensions <==> name in required && name !in availableExtensions[..k]
    {
      assert availableExtensions[..k + 1] == availableExtensions[..k] + [availableExtensions[k]];
      requiredExtensions := requiredExtensions - {availableExtensions[k]};
    }
    assert availableExtensions[..|availableExtensions|] == availableExtensions;
    supported := requiredExtensions == {};
    if !supported {
      var missing :| missing in requiredExtensions;
      assert missing in required && missing !in availableExtensions;
    } else {
      assert forall name :: name in required ==> name !in requiredExtensions;
    }
  }

  /**
   * A device the renderer can use: it has a graphics family and a present
   * family, offers every required extension, and its surface offers at least
   * one format and one present mode.
   */
  ghost predicate Suitable(device: PhysicalDevice) {
    && HasGraphicsFamily(device.queueFamilies)
    && HasPresentFamily(device.queueFamilies)
    && AllAvailable(DeviceExtensions, device.extensions)
    && |device.swapChainSupport.formats| > 0
    && |device.swapChainSupport.presentModes| > 0
  }

  /**
   * `IsDeviceSuitable`. The second result tells whether the swapchain support
   * of the device was queried, which happens only once its extensions are
   * known to be supported.
   */
  method IsDeviceSuitable(device: PhysicalDevice) returns (suitable: bool, swapChainQueried: bool)
    ensures suitable <==> Suitable(device)
    ensures swapChainQueried <==> AllAvailable(DeviceExtensions, device.extensions)
  {
    var indices := FindQueueFamilies(device.queueFamilies);
    var extensionsSupported := CheckDeviceExtensionsSupport(DeviceExtensions, device.extensions);
    var swapChainAdequate := false;
    swapChainQueried := false;
    if extensionsSupported {
      var swapChainSupport := device.swapChainSupport;
      swapChainQueried := true;
      swapChainAdequate := |swapChainSupport.formats| > 0 && |swapChainSupport.presentModes| > 0;
    }
    suitable := indices.IsComplete() && extensionsSupported && swapChainAdequate;
  }

  /** The device `PickPhysicalDevice` keeps: the first suitable one in enumeration order, if any. */
  ghost function FirstSuitableDevice(devices: seq<PhysicalDevice>): Option<PhysicalDevice>
  {
    if |devices| == 0 then None
    else if Suitable(devices[0]) then Some(devices[0])
    else FirstSuitableDevice(devices[1..])
  }

  /** A device is chosen exactly when some device is suitable; the chosen one is suitable and no earlier one is. */
  lemma {:induction false} FirstSuitableDeviceIsFirst(devices: seq<PhysicalDevice>)
    ensures FirstSuitableDevice(devices).Some? <==> exists k :: 0 <= k < |devices| && Suitable(devices[k])
    ensures FirstSuitableDevice(devices).Some? ==>
      exists k :: 0 <= k < |devices| && devices[k] == FirstSuitableDevice(devices).value && Suitable(devices[k]) &&
                  forall j :: 0 <= j < k ==> !Suitable(devices[j])
  {
    if |devices| > 0 && !Suitable(devices[0]) {
      var rest := devices[1..];
      FirstSuitableDeviceIsFirst(rest);
      assert forall k :: 1 <= k < |devices| ==> devices[k] == rest[k - 1];
      if FirstSuitableDevice(rest).Some? {
        var k :| 0 <= k < |rest| && rest[k] == FirstSuitableDevice(rest).value && Suitable(rest[k]) &&
                 forall j :: 0 <= j < k ==> !Suitable(rest[j]);
        assert devices[k + 1] == rest[k];
      } else {
        assert forall k :: 0 <= k < |devices| ==> !Suitable(devices[k]) by {
          forall k | 0 <= k < |devices|
            ensures !Suitable(devices[k])
          {
            if k > 0 {
              assert devices[k] == rest[k - 1];
            }
          }
        }
      }
    }
  }

  /** The device at the first suitable position is the one chosen. */
  lemma {:induction false} FirstSuitableDeviceAt(devices: seq<PhysicalDevice>, k: nat)
    requires k < |devices| && Suitable(devices[k])
    requires forall j :: 0 <= j < k ==> !Suitable(devices[j])
    ensures FirstSuitableDevice(devices) == Some(devices[k])
    decreases k
  {
    if k > 0 {
      FirstSuitableDeviceAt(devices[1..], k - 1);
    }
  }

  /** Nothing is chosen exactly when no device is suitable. */
  lemma {:induction false} NoSuitableDeviceChosen(devices: seq<PhysicalDevice>)
    ensures FirstSuitableDevice(devices).None? <==> forall j :: 0 <= j < |devices| ==> !Suitable(devices[j])
    decreases |devices|
  {
    if |devices| > 0 {
      NoSuitableDeviceChosen(devices[1..]);
      assert forall j :: 1 <= j < |devices| ==> devices[j] == devices[1..][j - 1];
    }
  }
}
