/** The servos, the limbs they belong to, and the commands sent to them. */
module Servos {
  import opened Requests

  const LIMB_COUNT: nat := 5
  const LEFT_LEG: Limb := 0
  const RIGHT_LEG: Limb := 1
  const LEFT_ARM: Limb := 2
  const RIGHT_ARM: Limb := 3
  const HEAD: Limb := 4

  const SERVO_COUNT: nat := 20
  type Servo = s: nat | s < 20

  const R_SHOULDER_PITCH: Servo := 0
  const L_SHOULDER_PITCH: Servo := 1
  const R_SHOULDER_ROLL: Servo := 2
  const L_SHOULDER_ROLL: Servo := 3
  const R_ELBOW: Servo := 4
  const L_ELBOW: Servo := 5
  const R_HIP_YAW: Servo := 6
  const L_HIP_YAW: Servo := 7
  const R_HIP_ROLL: Servo := 8
  const L_HIP_ROLL: Servo := 9
  const R_HIP_PITCH: Servo := 10
  const L_HIP_PITCH: Servo := 11
  const R_KNEE: Servo := 12
  const L_KNEE: Servo := 13
  const R_ANKLE_PITCH: Servo := 14
  const L_ANKLE_PITCH: Servo := 15
  const R_ANKLE_ROLL: Servo := 16
  const L_ANKLE_ROLL: Servo := 17
  const HEAD_YAW: Servo := 18
  const HEAD_PITCH: Servo := 19

  datatype Command = Command(source: nat, time: int, id: Servo, position: real, gain: real)

  datatype Target = Target(time: int, id: Servo, position: real, gain: real)

  function ServosForLimb(limb: Limb): set<Servo> {
    if limb == HEAD then {HEAD_PITCH, HEAD_YAW}
    else if limb == LEFT_LEG then {L_ANKLE_PITCH, L_ANKLE_ROLL, L_HIP_PITCH, L_HIP_ROLL, L_HIP_YAW, L_KNEE}
    else if limb == RIGHT_LEG then {R_ANKLE_PITCH, R_ANKLE_ROLL, R_HIP_PITCH, R_HIP_ROLL, R_HIP_YAW, R_KNEE}
    else if limb == LEFT_ARM then {L_SHOULDER_PITCH, L_SHOULDER_ROLL, L_ELBOW}
    else if limb == RIGHT_ARM then {R_SHOULDER_PITCH, R_SHOULDER_ROLL, R_ELBOW}
    else {}
  }

  function LimbForServo(servo: Servo): (limb: Limb)
    ensures limb < LIMB_COUNT
  {
    if servo in [HEAD_PITCH, HEAD_YAW] then HEAD
    else if servo in [L_ANKLE_PITCH, L_ANKLE_ROLL, L_HIP_PITCH, L_HIP_ROLL, L_HIP_YAW, L_KNEE] then LEFT_LEG
    else if servo in [R_ANKLE_PITCH, R_ANKLE_ROLL, R_HIP_PITCH, R_HIP_ROLL, R_HIP_YAW, R_KNEE] then RIGHT_LEG
    else if servo in [L_SHOULDER_PITCH, L_SHOULDER_ROLL, L_ELBOW] then LEFT_ARM
    else RIGHT_ARM
  }

  /** The two tables are inverse to each other: every servo belongs to exactly one limb. */
  lemma TablesAreInverse(servo: Servo, limb: Limb)
    ensures servo in ServosForLimb(limb) <==> LimbForServo(servo) == limb
    ensures LimbForServo(servo) < LIMB_COUNT
  {
  }
}
