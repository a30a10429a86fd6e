/** What the digital I/O program and homing both know of joints
    (src/include/machine/MotionBackend.h 204). */
module Joints {
  const MAX_JOINTS := 12
}
