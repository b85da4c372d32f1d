/**
 * The transport controls (`KeyInput` of reprodT.py): space toggles pause,
 * `q` quits, up and down step the playback speed by 0.1 within [0.5, 2.0].
 *
 * Keys arrive in one of three encodings: key names from a keyboard hook,
 * single bytes from the Windows console, or characters from a cbreak-mode
 * terminal where an arrow key is ESC followed by two characters.  Each is
 * decoded to an `Action`, and one transition function applies an action.
 *
 * Speed is kept as integer tenths: the source rounds every step to two
 * decimals, which keeps it on the 0.1 grid from its start at 1.0.
 */
module Keys {
  import opened Common
  import opened Ansi

  const MinSpeed: int := 5
  const MaxSpeed: int := 20

  /** The shared playback state: paused, speed in tenths, quit requested. */
  datatype Transport = Transport(pause: bool, speedTenths: int, quit: bool)

  const Initial: Transport := Transport(false, 10, false)

  predicate SpeedInRange(t: Transport) { MinSpeed <= t.speedTenths <= MaxSpeed }

  /** The speed factor the render loop divides the frame interval by. */
  function Speed(t: Transport): (s: real)
    ensures SpeedInRange(t) ==> 0.5 <= s <= 2.0
  {
    t.speedTenths as real / 10.0
  }

  datatype Action = TogglePause | SpeedUp | SpeedDown | Quit | Ignore

  /** One key press applied to the transport state. */
  function Apply(t: Transport, a: Action): (r: Transport)
    ensures SpeedInRange(t) ==> SpeedInRange(r)
    ensures r.pause != t.pause <==> a == TogglePause
    ensures r.quit <==> t.quit || a == Quit
    ensures r.speedTenths != t.speedTenths ==> a == SpeedUp || a == SpeedDown
    ensures a == SpeedUp && SpeedInRange(t) ==> r.speedTenths == Min(MaxSpeed, t.speedTenths + 1)
    ensures a == SpeedDown && SpeedInRange(t) ==> r.speedTenths == Max(MinSpeed, t.speedTenths - 1)
  {
    match a
    case TogglePause => t.(pause := !t.pause)
    case SpeedUp => t.(speedTenths := Min(MaxSpeed, t.speedTenths + 1))
    case SpeedDown => t.(speedTenths := Max(MinSpeed, t.speedTenths - 1))
    case Quit => t.(quit := true)
    case Ignore => t
  }

  /** Key names reported by the keyboard hook. */
  function KeyNameAction(name: string): (a: Action)
    ensures a != Ignore <==> name in {"space", "up", "uparrow", "down", "downarrow", "q"}
    ensures a == TogglePause <==> name == "space"
    ensures a == Quit <==> name == "q"
    ensures a == SpeedUp <==> name == "up" || name == "uparrow"
    ensures a == SpeedDown <==> name == "down" || name == "downarrow"
  {
    if name == "space" then TogglePause
    else if name == "up" || name == "uparrow" then SpeedUp
    else if name == "down" || name == "downarrow" then SpeedDown
    else if name == "q" then Quit
    else Ignore
  }

  /** Bytes read from the Windows console: space, `q`, `H` (up) and `P` (down). */
  function ConsoleByteAction(b: Byte): (a: Action)
    ensures a != Ignore <==> b in {' ' as int, 'q' as int, 'H' as int, 'P' as int}
    ensures a == TogglePause <==> b == ' ' as int
    ensures a == Quit <==> b == 'q' as int
    ensures a == SpeedUp <==> b == 'H' as int
    ensures a == SpeedDown <==> b == 'P' as int
  {
    if b == ' ' as int then TogglePause
    else if b == 'q' as int then Quit
    else if b == 'H' as int then SpeedUp
    else if b == 'P' as int then SpeedDown
    else Ignore
  }

  /**
   * The next key of terminal input: one character, or ESC and the (up to)
   * two characters read after it.  Returns the action and the characters used.
   */
  function TtyNext(input: seq<char>): (r: (Action, nat))
    requires input != []
    ensures 1 <= r.1 <= |input|
    ensures input[0] != Esc ==> r.1 == 1
    ensures input[0] == Esc ==> r.1 == Min(3, |input|)
    ensures r.0 == TogglePause <==> input[0] == ' '
    ensures r.0 == Quit <==> input[0] == 'q'
    ensures r.0 == SpeedUp <==> |input| >= 3 && input[..3] == [Esc, '[', 'A']
    ensures r.0 == SpeedDown <==> |input| >= 3 && input[..3] == [Esc, '[', 'B']
  {
    var ch := input[0];
    if ch == ' ' then (TogglePause, 1)
    else if ch == 'q' then (Quit, 1)
    else if ch == Esc then
      var action :=
        if |input| >= 3 && input[1] == '[' && input[2] == 'A' then SpeedUp
        else if |input| >= 3 && input[1] == '[' && input[2] == 'B' then SpeedDown
        else Ignore;
      (action, Min(3, |input|))
    else (Ignore, 1)
  }

  // ---------------------------------------------------------------------------
  // Runs of keys
  // ---------------------------------------------------------------------------

  /** Every action applied in turn, as the keyboard hook does. */
  function ApplyAll(t: Transport, actions: seq<Action>): Transport
    decreases |actions|
  {
    if actions == [] then t else ApplyAll(Apply(t, actions[0]), actions[1..])
  }

  /** Console bytes applied until quit is set; also returns how many were read. */
  function ConsoleRun(t: Transport, keys: seq<Byte>): (Transport, nat)
    decreases |keys|
  {
    if keys == [] || t.quit then (t, 0)
    else
      After(ConsoleRun(Apply(t, ConsoleByteAction(keys[0])), keys[1..]), 1)
  }

  /** A run's result `r` preceded by `n` more characters read. */
  function After(r: (Transport, nat), n: nat): (Transport, nat)
  {
    (r.0, r.1 + n)
  }

  /** Terminal characters decoded and applied until quit is set; also returns how many were read. */
  function TtyRun(t: Transport, input: seq<char>): (Transport, nat)
    decreases |input|
  {
    if input == [] || t.quit then (t, 0)
    else
      var step := TtyNext(input);
      After(TtyRun(Apply(t, step.0), input[step.1..]), step.1)
  }

  /** One decoding step of a terminal run. */
  lemma TtyRunStep(t: Transport, input: seq<char>)
    requires input != [] && !t.quit
    ensures TtyRun(t, input) == After(TtyRun(Apply(t, TtyNext(input).0), input[TtyNext(input).1..]), TtyNext(input).1)
  {
  }

  /** Reading the key at `start` moves a run's remainder past it. */
  lemma TtyRunAdvance(t: Transport, input: seq<char>, start: nat)
    requires start < |input| && !t.quit
    ensures var step := TtyNext(input[start..]);
            start + step.1 <= |input| &&
            After(TtyRun(t, input[start..]), start)
              == After(TtyRun(Apply(t, step.0), input[start + step.1..]), start + step.1)
  {
    var rest := input[start..];
    var step := TtyNext(rest);
    assert rest[step.1..] == input[start + step.1..];
    TtyRunStep(t, rest);
  }

  lemma {:induction false} ApplyAllInRange(t: Transport, actions: seq<Action>)
    requires SpeedInRange(t)
    ensures SpeedInRange(ApplyAll(t, actions))
    decreases |actions|
  {
    if actions != [] {
      ApplyAllInRange(Apply(t, actions[0]), actions[1..]);
    }
  }

  /** `n` presses of up raise the speed by `n` tenths, saturating at 2.0. */
  lemma {:induction false} SpeedUpSaturates(t: Transport, n: nat)
    requires SpeedInRange(t)
    ensures ApplyAll(t, seq(n, _ => SpeedUp)) == t.(speedTenths := Min(MaxSpeed, t.speedTenths + n))
    decreases n
  {
    if n > 0 {
      var rest := seq(n - 1, _ => SpeedUp);
      assert seq(n, _ => SpeedUp) == [SpeedUp] + rest;
      assert seq(n, _ => SpeedUp)[1..] == rest;
      SpeedUpSaturates(Apply(t, SpeedUp), n - 1);
    } else {
      assert seq(n, _ => SpeedUp) == [];
    }
  }

  /** `n` presses of down lower the speed by `n` tenths, saturating at 0.5. */
  lemma {:induction false} SpeedDownSaturates(t: Transport, n: nat)
    requires SpeedInRange(t)
    ensures ApplyAll(t, seq(n, _ => SpeedDown)) == t.(speedTenths := Max(MinSpeed, t.speedTenths - n))
    decreases n
  {
    if n > 0 {
      var rest := seq(n - 1, _ => SpeedDown);
      assert seq(n, _ => SpeedDown) == [SpeedDown] + rest;
      assert seq(n, _ => SpeedDown)[1..] == rest;
      SpeedDownSaturates(Apply(t, SpeedDown), n - 1);
    } else {
      assert seq(n, _ => SpeedDown) == [];
    }
  }

  /**
   * A console run keeps the speed in range and stops reading exactly at
   * quit: the last byte read is the first `q`, and no byte after it is read.
   */
  lemma {:induction false} ConsoleRunProperties(t: Transport, keys: seq<Byte>)
    requires SpeedInRange(t)
    ensures var (r, k) := ConsoleRun(t, keys);
            SpeedInRange(r) && k <= |keys| && (k < |keys| ==> r.quit) && (t.quit ==> k == 0 && r == t)
    ensures var (r, k) := ConsoleRun(t, keys);
            !t.quit && r.quit ==> 0 < k && keys[k - 1] == 'q' as int
    ensures var (r, k) := ConsoleRun(t, keys);
            !t.quit ==> forall i :: 0 <= i < k && keys[i] == 'q' as int ==> i == k - 1 && r.quit
    decreases |keys|
  {
    if keys != [] && !t.quit {
      var t' := Apply(t, ConsoleByteAction(keys[0]));
      ConsoleRunProperties(t', keys[1..]);
      var (r, k) := ConsoleRun(t', keys[1..]);
      assert ConsoleRun(t, keys) == (r, k + 1);
      if keys[0] == 'q' as int {
        assert t'.quit && k == 0;
      } else {
        assert !t'.quit;
        forall i | 0 <= i < k + 1 && keys[i] == 'q' as int
          ensures i == k && r.quit
        {
          assert i > 0 && keys[1..][i - 1] == keys[i];
        }
        if r.quit {
          assert keys[1..][k - 1] == keys[k];
        }
      }
    }
  }

  /**
   * A terminal run keeps the speed in range and stops reading exactly at
   * quit: the last character read is the `q` that set it.
   */
  lemma {:induction false} TtyRunProperties(t: Transport, input: seq<char>)
    requires SpeedInRange(t)
    ensures var (r, k) := TtyRun(t, input);
            SpeedInRange(r) && k <= |input| && (k < |input| ==> r.quit) && (t.quit ==> k == 0 && r == t)
    ensures var (r, k) := TtyRun(t, input);
            !t.quit && r.quit ==> 0 < k && input[k - 1] == 'q'
    decreases |input|
  {
    if input != [] && !t.quit {
      var step := TtyNext(input);
      var t' := Apply(t, step.0);
      TtyRunProperties(t', input[step.1..]);
      var (r, k) := TtyRun(t', input[step.1..]);
      assert TtyRun(t, input) == (r, k + step.1);
      if step.0 == Quit {
        assert t'.quit && k == 0 && step.1 == 1;
      } else if r.quit {
        assert !t'.quit;
        assert input[step.1..][k - 1] == input[k + step.1 - 1];
      }
    }
  }

  // ---------------------------------------------------------------------------
  // The input object
  // ---------------------------------------------------------------------------

  /**
   * `KeyInput`: the fields the input thread writes and the render loop reads.
   * The thread and the platform input primitives are not modelled; each run
   * method is handed the keys that arrive.
   */
  class KeyInput {
    var pause: bool
    var speed: int
    var quit: bool
    var running: bool

    function State(): Transport
      reads this
    {
      Transport(pause, speed, quit)
    }

    constructor ()
      ensures State() == Initial && running
    {
      pause := false;
      speed := 10;
      quit := false;
      running := true;
    }

    /** The keyboard-hook callback `on_key`. */
    method OnKey(name: string)
      modifies this
      ensures State() == Apply(old(State()), KeyNameAction(name))
      ensures running == old(running)
    {
      if name == "space" {
        pause := !pause;
      } else if name == "up" || name == "uparrow" {
        speed := Min(MaxSpeed, speed + 1);
      } else if name == "down" || name == "downarrow" {
        speed := Max(MinSpeed, speed - 1);
      } else if name == "q" {
        quit := true;
      }
    }

    /** The Windows console loop: bytes `keys` arrive while running and not quit. */
    method RunConsole(keys: seq<Byte>) returns (read: nat)
      modifies this
      ensures running == old(running)
      ensures old(running) ==> (State(), read) == ConsoleRun(old(State()), keys)
      ensures !old(running) ==> State() == old(State()) && read == 0
    {
      read := 0;
      if !running {
        return;
      }
      ghost var t0 := State();
      assert keys[read..] == keys;
      while running && !quit && read < |keys|
        invariant read <= |keys| && running
        invariant ConsoleRun(t0, keys) == After(ConsoleRun(State(), keys[read..]), read)
        decreases |keys| - read
      {
        var ch := keys[read];
        read := read + 1;
        if ch == ' ' as int {
          pause := !pause;
        } else if ch == 'q' as int {
          quit := true;
        } else if ch == 'H' as int {
          speed := Min(MaxSpeed, speed + 1);
        } else if ch == 'P' as int {
          speed := Max(MinSpeed, speed - 1);
        }
        assert keys[read - 1..][1..] == keys[read..];
      }
    }

    /** The cbreak terminal loop: characters `input` arrive while running and not quit. */
    method RunTty(input: seq<char>) returns (read: nat)
      modifies this
      ensures running == old(running)
      ensures old(running) ==> (State(), read) == TtyRun(old(State()), input)
      ensures !old(running) ==> State() == old(State()) && read == 0
    {
      read := 0;
      if !running {
        return;
      }
      ghost var t0 := State();
      assert input[read..] == input;
      while running && !quit && read < |input|
        invariant read <= |input| && running
        invariant TtyRun(t0, input) == After(TtyRun(State(), input[read..]), read)
        decreases |input| - read
      {
        ghost var before := State();
        ghost var start := read;
        read := TtyKey(input, read);
        TtyRunAdvance(before, input, start);
      }
      assert TtyRun(State(), input[read..]) == (State(), 0);
    }

    /** One pass of the terminal loop: the key starting at `input[at]`. */
    method TtyKey(input: seq<char>, at: nat) returns (next: nat)
      requires at < |input|
      modifies this
      ensures running == old(running)
      ensures State() == Apply(old(State()), TtyNext(input[at..]).0)
      ensures next == at + TtyNext(input[at..]).1
    {
      ghost var rest := input[at..];
      var ch := input[at];
      next := at + 1;
      if ch == ' ' {
        pause := !pause;
      } else if ch == 'q' {
        quit := true;
      } else if ch == Esc {
        var tail := input[next..Min(next + 2, |input|)];
        next := next + |tail|;
        assert tail == rest[1..Min(3, |rest|)];
        assert tail == "[A" <==> |rest| >= 3 && rest[1] == '[' && rest[2] == 'A';
        assert tail == "[B" <==> |rest| >= 3 && rest[1] == '[' && rest[2] == 'B';
        if tail == "[A" {
          speed := Min(MaxSpeed, speed + 1);
        } else if tail == "[B" {
          speed := Max(MinSpeed, speed - 1);
        }
      }
    }

    /** `stop`: the input loops end at their next check. */
    method Stop()
      modifies this
      ensures !running && State() == old(State())
    {
      running := false;
    }
  }
}
