/** Selection criteria for profiles, boot entries and boot parameters. A
    criterion that is `None` or empty in the source is unset and ignored;
    here an unset criterion is the empty string. */
module Selections {

  datatype Selection = Selection(
    bootId: string,
    title: string,
    version: string,
    machineId: string,
    rootDevice: string,
    lvmRootLv: string,
    btrfsSubvolPath: string,
    btrfsSubvolId: string,
    osId: string,
    osName: string,
    osShortName: string,
    osVersion: string,
    osVersionId: string,
    osUnamePattern: string,
    osKernelPattern: string,
    osInitramfsPattern: string,
    osOptions: string)

  /** `Selection()`: no criterion set. */
  const NoCriteria := Selection("", "", "", "", "", "", "", "", "", "", "", "", "", "", "", "", "")

  /** Each criterion of `weak` is unset or equal to the one in `strong`. */
  predicate Relaxes(weak: Selection, strong: Selection) {
    && (weak.bootId == "" || weak.bootId == strong.bootId)
    && (weak.title == "" || weak.title == strong.title)
    && (weak.version == "" || weak.version == strong.version)
    && (weak.machineId == "" || weak.machineId == strong.machineId)
    && (weak.rootDevice == "" || weak.rootDevice == strong.rootDevice)
    && (weak.lvmRootLv == "" || weak.lvmRootLv == strong.lvmRootLv)
    && (weak.btrfsSubvolPath == "" || weak.btrfsSubvolPath == strong.btrfsSubvolPath)
    && (weak.btrfsSubvolId == "" || weak.btrfsSubvolId == strong.btrfsSubvolId)
    && (weak.osId == "" || weak.osId == strong.osId)
    && (weak.osName == "" || weak.osName == strong.osName)
    && (weak.osShortName == "" || weak.osShortName == strong.osShortName)
    && (weak.osVersion == "" || weak.osVersion == strong.osVersion)
    && (weak.osVersionId == "" || weak.osVersionId == strong.osVersionId)
    && (weak.osUnamePattern == "" || weak.osUnamePattern == strong.osUnamePattern)
    && (weak.osKernelPattern == "" || weak.osKernelPattern == strong.osKernelPattern)
    && (weak.osInitramfsPattern == "" || weak.osInitramfsPattern == strong.osInitramfsPattern)
    && (weak.osOptions == "" || weak.osOptions == strong.osOptions)
  }
}
