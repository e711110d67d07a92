/**
 * The animated part of `Background1`: a piranha plant that rises out of its
 * pipe and sinks back, 2 pixels per frame, turning at the pipe's mouth and
 * 60 pixels above it.
 */
module Backgrounds {
  import opened JavaNumerics

  const Height: int := 600
  /** The y of the pipe's mouth: 600 − 170. */
  const PipeY: int := Height - 170
  const PiranhaHeight: int := 60

  /** The two fields `timePassed` updates. */
  datatype PiranhaState = PiranhaState(piranhaY: Int32, movingUp: bool)

  /** The fields' initial values: at the pipe's mouth, moving up. */
  const Initial: PiranhaState := PiranhaState(430, true)

  /**
   * One `timePassed`: 2 up while moving up, turning down once at or above
   * PipeY − 60; 2 down otherwise, turning up once at or below PipeY.
   */
  function Tick(s: PiranhaState): PiranhaState {
    if s.movingUp then
      var y := Wrap32(s.piranhaY as int - 2);
      PiranhaState(y, !(y as int <= PipeY - PiranhaHeight))
    else
      var y := Wrap32(s.piranhaY as int + 2);
      PiranhaState(y, y as int >= PipeY)
  }

  /**
   * A frame moves the plant by exactly 2 (barring 32-bit wrap-around), and
   * it turns exactly when it reaches the end it was heading for.
   */
  lemma TickMoves(s: PiranhaState)
    ensures s.movingUp && s.piranhaY >= -0x7fff_fffe ==> Tick(s).piranhaY as int == s.piranhaY as int - 2
    ensures !s.movingUp && s.piranhaY <= 0x7fff_fffd ==> Tick(s).piranhaY as int == s.piranhaY as int + 2
    ensures s.movingUp ==> (Tick(s).movingUp <==> Tick(s).piranhaY as int > PipeY - PiranhaHeight)
    ensures !s.movingUp ==> (Tick(s).movingUp <==> Tick(s).piranhaY as int >= PipeY)
  {
  }

  /** `n` frames in a row. */
  function Ticks(s: PiranhaState, n: nat): PiranhaState {
    if n == 0 then s else Tick(Ticks(s, n - 1))
  }

  /**
   * The range the plant keeps to: between 60 above the pipe's mouth and the
   * mouth itself, on even rows, moving away from whichever end it is at.
   */
  predicate InRange(s: PiranhaState) {
    PipeY - PiranhaHeight <= s.piranhaY as int <= PipeY
    && s.piranhaY % 2 == 0
    && (s.piranhaY as int == PipeY ==> s.movingUp)
    && (s.piranhaY as int == PipeY - PiranhaHeight ==> !s.movingUp)
  }

  /** A frame keeps the plant in its range. */
  lemma TickKeepsRange(s: PiranhaState)
    requires InRange(s)
    ensures InRange(Tick(s))
  {
  }

  /** Any number of frames keeps the plant in range. */
  lemma {:induction false} TicksKeepRange(s: PiranhaState, n: nat)
    requires InRange(s)
    ensures InRange(Ticks(s, n))
  {
    if n > 0 {
      TicksKeepRange(s, n - 1);
      TickKeepsRange(Ticks(s, n - 1));
    }
  }

  /** Starting from the initial state, the plant never leaves its range. */
  lemma AlwaysInRange(n: nat)
    ensures InRange(Initial) && InRange(Ticks(Initial, n))
  {
    TicksKeepRange(Initial, n);
  }

  /** Frames compose: `m` frames then `n` more are `m + n` frames. */
  lemma {:induction false} TicksAdd(s: PiranhaState, m: nat, n: nat)
    ensures Ticks(Ticks(s, m), n) == Ticks(s, m + n)
  {
    if n > 0 {
      calc {
        Ticks(Ticks(s, m), n);
        Tick(Ticks(Ticks(s, m), n - 1));
        { TicksAdd(s, m, n - 1); }
        Tick(Ticks(s, m + n - 1));
      }
    }
  }

  /**
   * While rising from a row below the top of its path, each frame goes
   * 2 up; the plant turns down on the frame that reaches 60 above the mouth.
   */
  lemma {:induction false} Rising(s: PiranhaState, k: nat)
    requires s.movingUp && PipeY - PiranhaHeight < s.piranhaY as int <= PipeY
    requires s.piranhaY as int - 2 * k >= PipeY - PiranhaHeight
    ensures Ticks(s, k) == PiranhaState((s.piranhaY as int - 2 * k) as Int32, s.piranhaY as int - 2 * k > PipeY - PiranhaHeight)
  {
    if k > 0 {
      Rising(s, k - 1);
    }
  }

  /**
   * While sinking from a row above the pipe's mouth, each frame
   * goes 2 down; the plant turns up on the frame that reaches the mouth.
   */
  lemma {:induction false} Sinking(s: PiranhaState, k: nat)
    requires !s.movingUp && PipeY - PiranhaHeight <= s.piranhaY as int < PipeY
    requires s.piranhaY as int + 2 * k <= PipeY
    ensures Ticks(s, k) == PiranhaState((s.piranhaY as int + 2 * k) as Int32, s.piranhaY as int + 2 * k >= PipeY)
  {
    if k > 0 {
      Sinking(s, k - 1);
    }
  }

  /**
   * From the initial state the plant rises for 30 frames, sinks for 30, and
   * is then back where it started; from then on it repeats every 60 frames.
   */
  lemma PeriodSixty(n: nat)
    ensures Ticks(Initial, 30) == PiranhaState((PipeY - PiranhaHeight) as Int32, false)
    ensures Ticks(Initial, 60) == Initial
    ensures Ticks(Initial, n + 60) == Ticks(Initial, n)
  {
    var start := Initial;
    Rising(start, 30);
    var top := Ticks(start, 30);
    Sinking(top, 30);
    TicksAdd(start, 30, 30);
    TicksAdd(start, 60, n);
  }

  class Background1 {
    var piranhaY: Int32
    var movingUp: bool

    constructor ()
      ensures State() == Initial
    {
      piranhaY := PipeY as Int32;
      movingUp := true;
    }

    function State(): PiranhaState
      reads this
    {
      PiranhaState(piranhaY, movingUp)
    }

    /** `timePassed`: one frame of the plant's motion, in place. */
    method TimePassed()
      modifies this
      ensures State() == Tick(old(State()))
    {
      if movingUp {
        piranhaY := Wrap32(piranhaY as int - 2);
        if piranhaY as int <= PipeY - PiranhaHeight {
          movingUp := false;
        }
      } else {
        piranhaY := Wrap32(piranhaY as int + 2);
        if piranhaY as int >= PipeY {
          movingUp := true;
        }
      }
    }
  }
}
