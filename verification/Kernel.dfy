/** What the drivers take from the kernel's headers: error numbers, an unsigned int's width, HZ arithmetic. */
module Kernel {
  const ENOMEM := 12
  const EFAULT := 14
  const EINVAL := 22
  const ENOSPC := 28

  const WORD: nat := 0x1_0000_0000

  /** The unsigned int product of seconds and HZ. */
  function Jiffies(seconds: int, hz: nat): nat {
    ((seconds % WORD) * hz) % WORD
  }
}
