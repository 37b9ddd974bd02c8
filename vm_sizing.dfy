/** The sizing of the editor's Linux virtual machine
    (editor/LinuxVMInstaller.swift): the CPU count and memory size handed
    to the virtualization framework, clamped to the bounds it reports.
    The host's processor count and the framework's bounds are parameters. */
module VmSizing {

  /** Four gibibytes, the default memory for Linux. */
  const DefaultMemorySize: nat := 4 * 1024 * 1024 * 1024

  function Max(a: int, b: int): int { if a >= b then a else b }
  function Min(a: int, b: int): int { if a <= b then a else b }

  /** `max` with the lower bound, then `min` with the upper one. */
  function Clamp(value: int, minimum: int, maximum: int): (r: int)
    ensures r <= maximum
    ensures minimum <= maximum ==> minimum <= r
    ensures minimum <= value <= maximum ==> r == value
    ensures value < minimum ==> r == Min(minimum, maximum)
    ensures value > maximum ==> r == maximum
  {
    Min(Max(value, minimum), maximum)
  }

  /** `computeCPUCount`: one CPU is left to the host when there is more
      than one; a single-CPU host still gives the machine one. */
  function ComputeCPUCount(processorCount: int, minimumAllowedCPUCount: int, maximumAllowedCPUCount: int): (r: int)
    ensures r <= maximumAllowedCPUCount
    ensures minimumAllowedCPUCount <= maximumAllowedCPUCount ==> minimumAllowedCPUCount <= r
    ensures processorCount >= 2 && minimumAllowedCPUCount <= processorCount - 1 <= maximumAllowedCPUCount ==>
      r == processorCount - 1
    ensures processorCount <= 1 && minimumAllowedCPUCount <= 1 <= maximumAllowedCPUCount ==> r == 1
  {
    var virtualCPUCount := if processorCount <= 1 then 1 else processorCount - 1;
    Clamp(virtualCPUCount, minimumAllowedCPUCount, maximumAllowedCPUCount)
  }

  /** `computeMemorySize`: four gibibytes within the framework's bounds. */
  function ComputeMemorySize(minimumAllowedMemorySize: nat, maximumAllowedMemorySize: nat): (r: nat)
    ensures r <= maximumAllowedMemorySize
    ensures minimumAllowedMemorySize <= maximumAllowedMemorySize ==> minimumAllowedMemorySize <= r
    ensures minimumAllowedMemorySize <= DefaultMemorySize <= maximumAllowedMemorySize ==> r == DefaultMemorySize
  {
    Clamp(DefaultMemorySize, minimumAllowedMemorySize, maximumAllowedMemorySize)
  }

  /** A host with more processors never gets fewer virtual ones. */
  lemma CPUCountMonotone(p: int, q: int, minimum: int, maximum: int)
    requires p <= q
    ensures ComputeCPUCount(p, minimum, maximum) <= ComputeCPUCount(q, minimum, maximum)
  {
  }

  /** The machine never gets every processor of a multi-processor host
      unless the framework's lower bound forces it. */
  lemma CPUCountLeavesOne(processorCount: int, minimum: int, maximum: int)
    requires processorCount >= 2 && minimum < processorCount
    ensures ComputeCPUCount(processorCount, minimum, maximum) < processorCount
  {
  }
}
