/** What goes over a link: the frames a crossing is made of, and which of them
    only let go of something the receiver holds for this machine. */
module Proto {
  import opened Registry

  /** Captured input, with the parts a decision is made on. */
  datatype InputEvent =
    | Motion(dx: real, dy: real)
    | Button(button: nat, state: nat)
    | Axis(axis: nat, value: real)
    | Key(key: nat, state: nat)
    | Modifiers(depressed: nat, latched: nat, locked: nat, group: nat)

  datatype Frame =
    | Enter(pos: Position)
    | Leave
    | Input(e: InputEvent)
    | MotionAbsolute(seqno: nat, vx: real, vy: real)

  /** An up, an empty modifier mask, or Leave. */
  predicate OnlyLetsGo(f: Frame) {
    match f
    case Leave => true
    case Input(Key(_, state)) => state == 0
    case Input(Modifiers(depressed, latched, _, _)) => depressed == 0 && latched == 0
    case Input(Button(_, state)) => state == 0
    case _ => false
  }

  /** A frame that lets go, and of what: Leave, a key's or a button's up, or modifiers
      with none held. Anything else can press. */
  lemma WhatLetsGo(f: Frame)
    ensures OnlyLetsGo(f) <==>
      || f == Leave
      || (exists k :: f == Input(Key(k, 0)))
      || (exists b :: f == Input(Button(b, 0)))
      || (exists locked, group :: f == Input(Modifiers(0, 0, locked, group)))
  {
  }

  function Opposite(pos: Position): (r: Position)
    ensures r != pos
  {
    match pos
    case Left => Right
    case Right => Left
    case Top => Bottom
    case Bottom => Top
  }
}
