// What the input guard holds down (apps/capture/src/guard.rs): every key and
// button it presses is released again, on every way out.
//
// Key names are given by their codes (`None` for an unsupported one), and
// floating-point coordinates by reals (`None` for infinities and not-a-numbers).
module HeldInput {
  import opened Basics

  /** A physical key or a mouse button, by its native number. */
  datatype Control = Key(code: int) | Button(number: int)

  /** One native injection: kinds 1 and 6 press, 2 and 7 release, 3 types, 4, 5, 8 and 9 move. */
  datatype Native =
    | Down(control: Control)
    | Up(control: Control)
    | Typed(text: seq<Byte>)
    | MovedTo(x: int, y: int)
    | MovedBy(dx: int, dy: int)
    | WheelY(amount: int)
    | WheelX(amount: int)

  // ----- What a log of injections amounts to -----

  /**
   * The controls down after one more injection; `None` once a control went down
   * twice, up without being down, or text was typed while something was down.
   */
  function Press(down: Option<set<Control>>, e: Native): Option<set<Control>> {
    if down.None? then None
    else
      match e
      case Down(c) => if c in down.value then None else Some(down.value + {c})
      case Up(c) => if c in down.value then Some(down.value - {c}) else None
      case Typed(_) => if down.value == {} then down else None
      case _ => down
  }

  function PressAll(down: Option<set<Control>>, log: seq<Native>): Option<set<Control>> {
    if log == [] then down else Press(PressAll(down, log[..|log| - 1]), log[|log| - 1])
  }

  lemma {:induction false} PressAllConcat(down: Option<set<Control>>, a: seq<Native>, b: seq<Native>)
    ensures PressAll(down, a + b) == PressAll(PressAll(down, a), b)
  {
    if b == [] {
      assert a + b == a;
    } else {
      assert (a + b)[..|a + b| - 1] == a + b[..|b| - 1];
      PressAllConcat(down, a, b[..|b| - 1]);
    }
  }

  /** The presses (true) and releases (false) of one control, in order. */
  function Strokes(log: seq<Native>, c: Control): seq<bool> {
    if log == [] then []
    else
      var e := log[|log| - 1];
      Strokes(log[..|log| - 1], c)
      + if e == Down(c) then [true] else if e == Up(c) then [false] else []
  }

  /** Down, up, down, up, … */
  ghost predicate Alternating(strokes: seq<bool>) {
    forall i :: 0 <= i < |strokes| ==> strokes[i] == (i % 2 == 0)
  }

  /** Every text was typed with nothing down. */
  ghost predicate TypesFreely(log: seq<Native>) {
    forall i :: 0 <= i < |log| && log[i].Typed? ==> forall c :: |Strokes(log[..i], c)| % 2 == 0
  }

  /** The scanner accepts a log exactly when its strokes alternate and its texts are typed freely. */
  lemma {:induction false} PressingMeans(log: seq<Native>)
    ensures PressAll(Some({}), log).Some? ==>
              && (forall c :: Alternating(Strokes(log, c)))
              && (forall c :: c in PressAll(Some({}), log).value <==> |Strokes(log, c)| % 2 == 1)
              && TypesFreely(log)
  {
    if log != [] && PressAll(Some({}), log).Some? {
      var n := |log| - 1;
      PressingMeans(log[..n]);
      forall i | 0 <= i < |log| && log[i].Typed? ensures forall c :: |Strokes(log[..i], c)| % 2 == 0 {
        if i < n {
          assert log[..n][i].Typed? && log[..n][..i] == log[..i];
        }
      }
    }
  }

  lemma {:induction false} AlternatingPresses(log: seq<Native>)
    requires (forall c :: Alternating(Strokes(log, c))) && TypesFreely(log)
    ensures PressAll(Some({}), log).Some?
  {
    if log != [] {
      var n := |log| - 1;
      forall c ensures Alternating(Strokes(log[..n], c)) {
        assert Alternating(Strokes(log, c));
        assert Strokes(log[..n], c) <= Strokes(log, c);
      }
      assert TypesFreely(log[..n]) by {
        forall i | 0 <= i < n && log[i].Typed? ensures forall c :: |Strokes(log[..n][..i], c)| % 2 == 0 {
          assert log[..n][..i] == log[..i];
        }
      }
      AlternatingPresses(log[..n]);
      PressingMeans(log[..n]);
      LastStrokeFits(log, n);
    }
  }

  lemma LastStrokeFits(log: seq<Native>, n: nat)
    requires n + 1 == |log| && (forall c :: Alternating(Strokes(log, c))) && TypesFreely(log)
    requires PressAll(Some({}), log[..n]).Some?
    requires forall c :: c in PressAll(Some({}), log[..n]).value <==> |Strokes(log[..n], c)| % 2 == 1
    ensures PressAll(Some({}), log).Some?
  {
    var e, down := log[n], PressAll(Some({}), log[..n]).value;
    match e
    case Down(c) =>
      assert Alternating(Strokes(log, c)) && Strokes(log, c)[|Strokes(log[..n], c)|];
    case Up(c) =>
      assert Alternating(Strokes(log, c)) && !Strokes(log, c)[|Strokes(log[..n], c)|];
    case Typed(_) =>
      forall c ensures c !in down {
        assert |Strokes(log[..n], c)| % 2 == 0;
      }
    case _ =>
  }

  // ----- Ordered sets -----

  lemma HasElement(s: set<int>)
    ensures s == {} || exists y :: y in s
  {
    if forall y :: y !in s {
      assert s == {};
    }
  }

  lemma {:induction false} LeastExists(s: set<int>)
    requires s != {}
    ensures exists m :: m in s && forall x :: x in s ==> m <= x
  {
    HasElement(s);
    var y :| y in s;
    var rest := s - {y};
    assert s == rest + {y};
    if rest != {} {
      LeastExists(rest);
      var m :| m in rest && forall x :: x in rest ==> m <= x;
      var least := if y < m then y else m;
      forall x | x in s ensures least <= x {
        assert x == y || x in rest;
      }
    }
  }

  function Least(s: set<int>): (m: int)
    requires s != {}
    ensures m in s && forall x :: x in s ==> m <= x
  {
    LeastExists(s);
    var m :| m in s && forall x :: x in s ==> m <= x;
    m
  }

  /** The elements in ascending order. */
  function Ascending(s: set<int>): (r: seq<int>)
    ensures forall x :: x in r <==> x in s
    ensures forall i, j :: 0 <= i < j < |r| ==> r[i] < r[j]
    decreases |s|
  {
    if s == {} then []
    else
      var m := Least(s);
      [m] + Ascending(s - {m})
  }

  function Keys(codes: seq<int>): (r: seq<Control>)
    ensures |r| == |codes| && forall i :: 0 <= i < |r| ==> r[i] == Key(codes[i])
  {
    seq(|codes|, i requires 0 <= i < |codes| => Key(codes[i]))
  }

  function Buttons(numbers: seq<int>): (r: seq<Control>)
    ensures |r| == |numbers| && forall i :: 0 <= i < |r| ==> r[i] == Button(numbers[i])
  {
    seq(|numbers|, i requires 0 <= i < |numbers| => Button(numbers[i]))
  }

  function Downs(cs: seq<Control>): (r: seq<Native>)
    ensures |r| == |cs|
  {
    seq(|cs|, i requires 0 <= i < |cs| => Down(cs[i]))
  }

  function Ups(cs: seq<Control>): (r: seq<Native>)
    ensures |r| == |cs|
  {
    seq(|cs|, i requires 0 <= i < |cs| => Up(cs[i]))
  }

  function SetOf(cs: seq<Control>): set<Control> {
    set c | c in cs
  }

  ghost predicate Distinct(cs: seq<Control>) {
    forall i, j :: 0 <= i < j < |cs| ==> cs[i] != cs[j]
  }

  lemma {:induction false} UpsRelease(down: set<Control>, cs: seq<Control>)
    requires Distinct(cs) && SetOf(cs) <= down
    ensures PressAll(Some(down), Ups(cs)) == Some(down - SetOf(cs))
  {
    if cs == [] {
      assert down - SetOf(cs) == down;
    } else {
      var n := |cs| - 1;
      LastOut(cs);
      UpsRelease(down, cs[..n]);
      assert Ups(cs) == Ups(cs[..n]) + [Up(cs[n])];
      assert down - SetOf(cs[..n]) - {cs[n]} == down - SetOf(cs);
    }
  }

  lemma {:induction false} DownsPress(down: set<Control>, cs: seq<Control>)
    requires Distinct(cs) && SetOf(cs) !! down
    ensures PressAll(Some(down), Downs(cs)) == Some(down + SetOf(cs))
  {
    if cs == [] {
      assert down + SetOf(cs) == down;
    } else {
      var n := |cs| - 1;
      LastOut(cs);
      DownsPress(down, cs[..n]);
      assert Downs(cs) == Downs(cs[..n]) + [Down(cs[n])];
      assert down + SetOf(cs[..n]) + {cs[n]} == down + SetOf(cs);
    }
  }

  lemma LastOut(cs: seq<Control>)
    requires Distinct(cs) && cs != []
    ensures var n := |cs| - 1;
            SetOf(cs) == SetOf(cs[..n]) + {cs[n]} && cs[n] !in SetOf(cs[..n]) && Distinct(cs[..n])
  {
    assert cs == cs[..|cs| - 1] + [cs[|cs| - 1]];
  }

  // ----- Events -----

  /** A coordinate; `None` for a value that is not finite. */
  type Number = Option<real>

  datatype Event =
    | KeyEvent(code: Option<int>, down: bool)
    | Text(text: seq<Byte>)
    | Absolute(x: Number, y: Number)
    | Relative(dxTotal: Number, dyTotal: Number)
    | ButtonEvent(button: nat, down: bool, atX: Option<Number>, atY: Option<Number>)
    | Wheel(dx: Number, dy: Number)
    | StateEvent(codes: seq<Option<int>>, buttons: seq<nat>)
    | Reset

  /** To the nearest whole number, halves away from zero. */
  function Round(x: real): int {
    if x >= 0.0 then (x + 0.5).Floor else -((0.5 - x).Floor)
  }

  function Point(x: Number, y: Number): Option<(int, int)> {
    if x.Some? && y.Some? && 0.0 <= x.value <= 1.0 && 0.0 <= y.value <= 1.0
    then Some((Round(x.value * 32767.0), Round(y.value * 32767.0)))
    else None
  }

  predicate Within(x: Number, limit: real) {
    x.Some? && -limit <= x.value <= limit
  }

  const MAX_TEXT := 16384
  const MAX_KEYS := 64
  const MAX_BUTTONS := 5
  const MAX_STEP := 32767

  predicate ValidText(text: seq<Byte>) {
    |text| <= MAX_TEXT && 0 !in text
  }

  predicate ValidState(codes: seq<Option<int>>, buttons: seq<nat>) {
    && |codes| <= MAX_KEYS && |buttons| <= MAX_BUTTONS
    && (forall b :: b in buttons ==> b <= 4)
    && None !in codes
  }

  function WantedKeys(codes: seq<Option<int>>): set<int> {
    set c | c in codes && c.Some? :: c.value
  }

  function WantedButtons(buttons: seq<nat>): set<int> {
    set b | b in buttons :: b + 1
  }

  function KeySet(s: set<int>): set<Control> {
    set k | k in s :: Key(k)
  }

  function ButtonSet(s: set<int>): set<Control> {
    set b | b in s :: Button(b)
  }

  /** What is held, and the totals the last relative motion reached. */
  datatype Holding = Holding(keys: set<int>, buttons: set<int>, motion: (real, real)) {
    function Controls(): set<Control> {
      KeySet(keys) + ButtonSet(buttons)
    }

    /** The order in which everything held is released. */
    function Order(): seq<Control> {
      Keys(Ascending(keys)) + Buttons(Ascending(buttons))
    }

    function Released(): Holding {
      Holding({}, {}, motion)
    }
  }

  function Step(h: Holding, dxTotal: real, dyTotal: real): (int, int) {
    (Round(dxTotal - h.motion.0), Round(dyTotal - h.motion.1))
  }

  predicate Accepts(h: Holding, e: Event) {
    match e
    case KeyEvent(code, _) => code.Some?
    case Text(text) => ValidText(text)
    case Absolute(x, y) => Point(x, y).Some?
    case Relative(dx, dy) =>
      && Within(dx, 2_000_000_000.0) && Within(dy, 2_000_000_000.0)
      && var s := Step(h, dx.value, dy.value); -MAX_STEP <= s.0 <= MAX_STEP && -MAX_STEP <= s.1 <= MAX_STEP
    case ButtonEvent(button, _, x, y) =>
      button <= 4 && (x.Some? && y.Some? ==> Point(x.value, y.value).Some?)
    case Wheel(dx, dy) => Within(dx, 1200.0) && Within(dy, 1200.0)
    case StateEvent(codes, buttons) => ValidState(codes, buttons)
    case Reset => true
  }

  /** What is held after an accepted event. */
  function Then(h: Holding, e: Event): Holding
    requires Accepts(h, e)
  {
    match e
    case KeyEvent(code, down) => h.(keys := if down then h.keys + {code.value} else h.keys - {code.value})
    case Text(_) => h.Released()
    case Relative(dx, dy) => h.(motion := (dx.value, dy.value))
    case ButtonEvent(button, down, _, _) =>
      h.(buttons := if down then h.buttons + {button + 1} else h.buttons - {button + 1})
    case StateEvent(codes, buttons) => h.(keys := WantedKeys(codes), buttons := WantedButtons(buttons))
    case Reset => h.Released()
    case _ => h
  }

  /** What an accepted event injects. */
  function Injects(h: Holding, e: Event): seq<Native>
    requires Accepts(h, e)
  {
    match e
    case KeyEvent(code, down) => Changes(h.keys, Key(code.value), code.value, down)
    case Text(text) => Ups(h.Order()) + [Typed(text)]
    case Absolute(x, y) => var p := Point(x, y).value; [MovedTo(p.0, p.1)]
    case Relative(dx, dy) => var s := Step(h, dx.value, dy.value); [MovedBy(s.0, s.1)]
    case ButtonEvent(button, down, x, y) =>
      (if x.Some? && y.Some? then var p := Point(x.value, y.value).value; [MovedTo(p.0, p.1)] else [])
      + Changes(h.buttons, Button(button + 1), button + 1, down)
    case Wheel(dx, dy) => [WheelY(-Round(dy.value)), WheelX(-Round(dx.value))]
    case StateEvent(codes, buttons) =>
      var keys, wanted := WantedKeys(codes), WantedButtons(buttons);
      Ups(Keys(Ascending(h.keys - keys))) + Downs(Keys(Ascending(keys - h.keys)))
      + Ups(Buttons(Ascending(h.buttons - wanted))) + Downs(Buttons(Ascending(wanted - h.buttons)))
    case Reset => Ups(h.Order())
  }

  /** A press of something already down, or a release of something up, injects nothing. */
  function Changes(held: set<int>, c: Control, code: int, down: bool): seq<Native> {
    if down && code !in held then [Down(c)] else if !down && code in held then [Up(c)] else []
  }

  lemma OrderIsAll(h: Holding)
    ensures Distinct(h.Order()) && SetOf(h.Order()) == h.Controls()
  {
    var ks, bs := Ascending(h.keys), Ascending(h.buttons);
    forall c ensures c in h.Order() <==> c in h.Controls() {
      if c in h.Controls() {
        match c
        case Key(k) =>
          var i :| 0 <= i < |ks| && ks[i] == k;
          assert h.Order()[i] == c;
        case Button(b) =>
          var i :| 0 <= i < |bs| && bs[i] == b;
          assert h.Order()[|ks| + i] == c;
      }
    }
  }

  lemma ReleasesAll(h: Holding)
    ensures PressAll(Some(h.Controls()), Ups(h.Order())) == Some({})
  {
    OrderIsAll(h);
    UpsRelease(h.Controls(), h.Order());
    assert h.Controls() - SetOf(h.Order()) == {};
  }

  lemma NothingHeld(h: Holding)
    ensures h.Released().Controls() == {}
  {
  }

  lemma One(down: Option<set<Control>>, e: Native)
    ensures PressAll(down, [e]) == Press(down, e)
  {
    assert [e][..0] == [];
  }

  lemma ChangeFits(h: Holding, isKey: bool, code: int, down: bool)
    ensures var held := if isKey then h.keys else h.buttons;
            var c := if isKey then Key(code) else Button(code);
            var now := if down then held + {code} else held - {code};
            var after := if isKey then h.(keys := now) else h.(buttons := now);
            PressAll(Some(h.Controls()), Changes(held, c, code, down)) == Some(after.Controls())
  {
    var held := if isKey then h.keys else h.buttons;
    var c := if isKey then Key(code) else Button(code);
    var now := if down then held + {code} else held - {code};
    var after := if isKey then h.(keys := now) else h.(buttons := now);
    assert c in h.Controls() <==> code in held;
    if down && code !in held {
      One(Some(h.Controls()), Down(c));
      assert after.Controls() == h.Controls() + {c};
    } else if !down && code in held {
      One(Some(h.Controls()), Up(c));
      assert after.Controls() == h.Controls() - {c};
    } else {
      assert after.Controls() == h.Controls();
    }
  }

  /** One kind of control changes from `old` to `wanted` while the others stay. */
  lemma SwitchFits(others: set<Control>, from: seq<Control>, to: seq<Control>, both: set<Control>)
    requires Distinct(from) && Distinct(to) && SetOf(from) !! both && SetOf(to) !! both
    requires others !! both && others !! SetOf(from) && others !! SetOf(to)
    ensures PressAll(Some(others + both + SetOf(from)), Ups(from) + Downs(to)) == Some(others + both + SetOf(to))
  {
    var down := others + both + SetOf(from);
    PressAllConcat(Some(down), Ups(from), Downs(to));
    UpsRelease(down, from);
    assert down - SetOf(from) == others + both;
    DownsPress(others + both, to);
  }

  lemma KeysInOrder(s: set<int>)
    ensures Distinct(Keys(Ascending(s))) && SetOf(Keys(Ascending(s))) == KeySet(s)
  {
    var cs := Keys(Ascending(s));
    forall c ensures c in SetOf(cs) <==> c in KeySet(s) {
      if c in KeySet(s) {
        var i :| 0 <= i < |Ascending(s)| && Ascending(s)[i] == c.code;
        assert cs[i] == c;
      }
    }
  }

  lemma ButtonsInOrder(s: set<int>)
    ensures Distinct(Buttons(Ascending(s))) && SetOf(Buttons(Ascending(s))) == ButtonSet(s)
  {
    var cs := Buttons(Ascending(s));
    forall c ensures c in SetOf(cs) <==> c in ButtonSet(s) {
      if c in ButtonSet(s) {
        var i :| 0 <= i < |Ascending(s)| && Ascending(s)[i] == c.number;
        assert cs[i] == c;
      }
    }
  }

  /** `others` stay down while `was` becomes `now`. */
  lemma KeysSwitch(others: set<Control>, was: set<int>, now: set<int>)
    requires forall c :: c in others ==> c.Button?
    ensures PressAll(Some(others + KeySet(was)), Ups(Keys(Ascending(was - now))) + Downs(Keys(Ascending(now - was))))
            == Some(others + KeySet(now))
  {
    hide PressAll, Ups, Downs, Keys;
    var up, down := Keys(Ascending(was - now)), Keys(Ascending(now - was));
    KeysInOrder(was - now);
    KeysInOrder(now - was);
    SwitchFits(others, up, down, KeySet(was * now));
    assert others + KeySet(was * now) + SetOf(up) == others + KeySet(was);
    assert others + KeySet(was * now) + SetOf(down) == others + KeySet(now);
  }

  lemma ButtonsSwitch(others: set<Control>, was: set<int>, now: set<int>)
    requires forall c :: c in others ==> c.Key?
    ensures PressAll(Some(others + ButtonSet(was)),
                     Ups(Buttons(Ascending(was - now))) + Downs(Buttons(Ascending(now - was))))
            == Some(others + ButtonSet(now))
  {
    hide PressAll, Ups, Downs, Buttons;
    var up, down := Buttons(Ascending(was - now)), Buttons(Ascending(now - was));
    ButtonsInOrder(was - now);
    ButtonsInOrder(now - was);
    SwitchFits(others, up, down, ButtonSet(was * now));
    assert others + ButtonSet(was * now) + SetOf(up) == others + ButtonSet(was);
    assert others + ButtonSet(was * now) + SetOf(down) == others + ButtonSet(now);
  }

  lemma StateFits(h: Holding, keys: set<int>, buttons: set<int>)
    ensures var log := Ups(Keys(Ascending(h.keys - keys))) + Downs(Keys(Ascending(keys - h.keys)))
                       + Ups(Buttons(Ascending(h.buttons - buttons))) + Downs(Buttons(Ascending(buttons - h.buttons)));
            PressAll(Some(h.Controls()), log) == Some(h.(keys := keys, buttons := buttons).Controls())
  {
    hide PressAll, Ups, Downs, Buttons, Keys, Ascending;
    var a := Ups(Keys(Ascending(h.keys - keys))) + Downs(Keys(Ascending(keys - h.keys)));
    var b := Ups(Buttons(Ascending(h.buttons - buttons)));
    var c := Downs(Buttons(Ascending(buttons - h.buttons)));
    KeysSwitch(ButtonSet(h.buttons), h.keys, keys);
    ButtonsSwitch(KeySet(keys), h.buttons, buttons);
    assert h.Controls() == ButtonSet(h.buttons) + KeySet(h.keys);
    assert ButtonSet(h.buttons) + KeySet(keys) == KeySet(keys) + ButtonSet(h.buttons);
    assert h.(keys := keys, buttons := buttons).Controls() == KeySet(keys) + ButtonSet(buttons);
    PressAllConcat(Some(h.Controls()), a, b + c);
    assert a + b + c == a + (b + c);
  }

  /** An accepted event takes what was down to what is held after it, stroke by stroke. */
  lemma AcceptedFits(h: Holding, e: Event)
    requires Accepts(h, e)
    ensures PressAll(Some(h.Controls()), Injects(h, e)) == Some(Then(h, e).Controls())
  {
    hide PressAll, Ups, Downs, Keys, Buttons;
    var down := Some(h.Controls());
    match e
    case KeyEvent(code, pressed) => ChangeFits(h, true, code.value, pressed);
    case Text(text) =>
      ReleasesAll(h);
      PressAllConcat(down, Ups(h.Order()), [Typed(text)]);
      One(Some({}), Typed(text));
      NothingHeld(h);
    case Absolute(x, y) => One(down, Injects(h, e)[0]);
    case Relative(dx, dy) => One(down, Injects(h, e)[0]);
    case ButtonEvent(button, pressed, x, y) =>
      var changes := Changes(h.buttons, Button(button + 1), button + 1, pressed);
      ChangeFits(h, false, button + 1, pressed);
      if x.Some? && y.Some? {
        var p := Point(x.value, y.value).value;
        PressAllConcat(down, [MovedTo(p.0, p.1)], changes);
        One(down, MovedTo(p.0, p.1));
      } else {
        assert [] + changes == changes;
      }
    case Wheel(dx, dy) =>
      var a, b := WheelY(-Round(dy.value)), WheelX(-Round(dx.value));
      assert Injects(h, e) == [a] + [b];
      PressAllConcat(down, [a], [b]);
      One(down, a);
      One(down, b);
    case StateEvent(codes, buttons) => StateFits(h, WantedKeys(codes), WantedButtons(buttons));
    case Reset =>
      ReleasesAll(h);
      NothingHeld(h);
  }

  // ----- What each event asks for -----

  /** To the nearest whole number; a half goes away from zero. */
  lemma RoundsToNearest(x: real)
    ensures x >= 0.0 ==> -0.5 <= x - Round(x) as real < 0.5
    ensures x < 0.0 ==> -0.5 < x - Round(x) as real <= 0.5
  {
  }

  /** A point lies on a grid of 32768 steps a side, at most half a step off, and only for fractions of the picture. */
  lemma PointsAre(x: Number, y: Number)
    ensures Point(x, y).Some? <==> x.Some? && y.Some? && 0.0 <= x.value <= 1.0 && 0.0 <= y.value <= 1.0
    ensures Point(x, y).Some? ==>
              var p := Point(x, y).value;
              && 0 <= p.0 <= 32767 && 0 <= p.1 <= 32767
              && -0.5 <= 32767.0 * x.value - p.0 as real <= 0.5 && -0.5 <= 32767.0 * y.value - p.1 as real <= 0.5
  {
    if Point(x, y).Some? {
      RoundsToNearest(x.value * 32767.0);
      RoundsToNearest(y.value * 32767.0);
    }
  }

  /** Which events are refused. */
  lemma AcceptsExactly(h: Holding, e: Event)
    ensures match e
            case KeyEvent(code, _) => Accepts(h, e) <==> code.Some?
            case Text(text) => Accepts(h, e) <==> |text| <= 16384 && forall i :: 0 <= i < |text| ==> text[i] != 0
            case Absolute(x, y) => Accepts(h, e) <==> Point(x, y).Some?
            case Relative(dx, dy) =>
              Accepts(h, e)
              <==> && dx.Some? && dy.Some?
                   && -2_000_000_000.0 <= dx.value <= 2_000_000_000.0 && -2_000_000_000.0 <= dy.value <= 2_000_000_000.0
                   && -32767 <= Round(dx.value - h.motion.0) <= 32767 && -32767 <= Round(dy.value - h.motion.1) <= 32767
            case ButtonEvent(button, _, x, y) =>
              Accepts(h, e) <==> button < 5 && (x.None? || y.None? || Point(x.value, y.value).Some?)
            case Wheel(dx, dy) =>
              Accepts(h, e)
              <==> dx.Some? && dy.Some? && -1200.0 <= dx.value <= 1200.0 && -1200.0 <= dy.value <= 1200.0
            case StateEvent(codes, buttons) =>
              Accepts(h, e)
              <==> |codes| <= 64 && |buttons| <= 5 && (forall i :: 0 <= i < |codes| ==> codes[i].Some?)
                   && forall i :: 0 <= i < |buttons| ==> buttons[i] < 5
            case Reset => Accepts(h, e)
  {
    hide Point, Round;
    match e
    case Text(text) =>
    case StateEvent(codes, buttons) =>
      assert None in codes <==> exists i :: 0 <= i < |codes| && codes[i] == None;
      assert forall i :: 0 <= i < |buttons| ==> buttons[i] in buttons;
    case _ =>
  }

  /** A state names keys by their codes and buttons from zero, as a press does; what it names is what is held. */
  lemma StatesAre(h: Holding, codes: seq<Option<int>>, buttons: seq<nat>)
    requires Accepts(h, StateEvent(codes, buttons))
    ensures var held := Then(h, StateEvent(codes, buttons));
            && (forall k :: k in held.keys <==> Some(k) in codes)
            && (forall b: nat :: b + 1 in held.buttons <==> b in buttons)
            && (forall n :: n in held.buttons ==> n >= 1) && held.motion == h.motion
  {
  }

  lemma PressesAre(h: Holding, k: int, b: nat, down: bool, x: Option<Number>, y: Option<Number>)
    requires Accepts(h, KeyEvent(Some(k), down)) && Accepts(h, ButtonEvent(b, down, x, y))
    ensures var key, button := Then(h, KeyEvent(Some(k), down)), Then(h, ButtonEvent(b, down, x, y));
            && (k in key.keys <==> down) && key.buttons == h.buttons && key.motion == h.motion
            && (b + 1 in button.buttons <==> down) && button.keys == h.keys && button.motion == h.motion
            && (forall j :: j != k ==> (j in key.keys <==> j in h.keys))
            && (forall j :: j != b + 1 ==> (j in button.buttons <==> j in h.buttons))
  {
  }

  /** Keys, states and resets press and release; a click does too, but for the move before it. */
  lemma OnlyStrokes(h: Holding, e: Event, i: nat)
    requires Accepts(h, e) && i < |Injects(h, e)|
    requires e.KeyEvent? || e.StateEvent? || e.Reset? || (e.ButtonEvent? && (e.atX.None? || e.atY.None?))
    ensures Injects(h, e)[i].Down? || Injects(h, e)[i].Up?
  {
    hide Ascending;
  }

  lemma NothingAscending()
    ensures Ascending({}) == []
  {
  }

  /** A state that names exactly what is held injects nothing. */
  lemma SameStateIsSilent(h: Holding, codes: seq<Option<int>>, buttons: seq<nat>)
    requires Accepts(h, StateEvent(codes, buttons))
    requires forall k :: k in h.keys <==> Some(k) in codes
    requires forall n :: n in h.buttons <==> n >= 1 && n - 1 in buttons
    ensures Injects(h, StateEvent(codes, buttons)) == []
  {
    StatesAre(h, codes, buttons);
    var held := Then(h, StateEvent(codes, buttons));
    forall k ensures k in held.keys <==> k in h.keys {
      assert k in held.keys <==> Some(k) in codes;
    }
    assert held.keys == h.keys;
    forall n ensures n in held.buttons <==> n in h.buttons {
      if n >= 1 {
        var b: nat := n - 1;
        assert b + 1 in held.buttons <==> b in buttons;
      }
    }
    assert held.buttons == h.buttons;
    assert h.keys - h.keys == {} && h.buttons - h.buttons == {};
    NothingAscending();
  }

  /** Text is typed as it came, after everything held went up; pointer and wheel go where they were sent. */
  lemma MovesAre(h: Holding, text: seq<Byte>, x: Number, y: Number, dx: Number, dy: Number)
    ensures ValidText(text) ==>
              Injects(h, Text(text)) == Injects(h, Reset) + [Typed(text)]
              && Then(h, Text(text)) == Then(h, Reset) == Holding({}, {}, h.motion)
    ensures Accepts(h, Absolute(x, y)) ==>
              Injects(h, Absolute(x, y)) == [MovedTo(Point(x, y).value.0, Point(x, y).value.1)]
              && Then(h, Absolute(x, y)) == h
    ensures Accepts(h, Wheel(dx, dy)) ==>
              Injects(h, Wheel(dx, dy)) == [WheelY(-Round(dy.value)), WheelX(-Round(dx.value))]
              && Then(h, Wheel(dx, dy)) == h
    ensures Accepts(h, Relative(dx, dy)) ==>
              Injects(h, Relative(dx, dy)) == [MovedBy(Round(dx.value - h.motion.0), Round(dy.value - h.motion.1))]
              && Then(h, Relative(dx, dy)) == h.(motion := (dx.value, dy.value))
  {
    hide Round, Point;
  }

  /** A click first moves to where it was made, if that is known. */
  lemma ClicksMoveFirst(h: Holding, button: nat, down: bool, x: Number, y: Number)
    requires Accepts(h, ButtonEvent(button, down, Some(x), Some(y)))
    ensures Injects(h, ButtonEvent(button, down, Some(x), Some(y)))
            == Injects(h, Absolute(x, y)) + Injects(h, ButtonEvent(button, down, None, None))
  {
    hide Point;
    assert forall s: seq<Native> :: [] + s == s;
  }

  // ----- Relative motion over many events -----

  datatype Performed = Performed(held: Holding, log: seq<Native>)

  /** What is held after `events` and what they inject; None if one of them is refused. */
  function PerformAll(h: Holding, events: seq<Event>): Option<Performed> {
    if events == [] then Some(Performed(h, []))
    else
      var n := |events| - 1;
      var before := PerformAll(h, events[..n]);
      if before.None? || !Accepts(before.value.held, events[n]) then None
      else
        var held := before.value.held;
        Some(Performed(Then(held, events[n]), before.value.log + Injects(held, events[n])))
  }

  function Moved(log: seq<Native>): (int, int) {
    if log == [] then (0, 0)
    else
      var before, e := Moved(log[..|log| - 1]), log[|log| - 1];
      if e.MovedBy? then (before.0 + e.dx, before.1 + e.dy) else before
  }

  lemma {:induction false} MovedConcat(a: seq<Native>, b: seq<Native>)
    ensures Moved(a + b) == (Moved(a).0 + Moved(b).0, Moved(a).1 + Moved(b).1)
  {
    if b == [] {
      assert a + b == a;
    } else {
      assert (a + b)[..|a + b| - 1] == a + b[..|b| - 1];
      MovedConcat(a, b[..|b| - 1]);
    }
  }

  lemma {:induction false} StandsStill(log: seq<Native>)
    requires forall i :: 0 <= i < |log| ==> !log[i].MovedBy?
    ensures Moved(log) == (0, 0)
  {
    if log != [] {
      StandsStill(log[..|log| - 1]);
    }
  }

  lemma OnlyRelativeMoves(h: Holding, e: Event)
    requires Accepts(h, e) && !e.Relative?
    ensures Moved(Injects(h, e)) == (0, 0) && Then(h, e).motion == h.motion
  {
    hide Point, Round, Ascending;
    StandsStill(Injects(h, e));
  }

  predicate Whole(x: real) {
    x.Floor as real == x
  }

  lemma RoundWhole(x: real, y: real)
    requires Whole(x) && Whole(y)
    ensures Round(x - y) == x.Floor - y.Floor
  {
    var d := x.Floor - y.Floor;
    assert x - y == d as real;
    RoundsToNearest(x - y);
  }

  ghost predicate WholeTotals(e: Event) {
    e.Relative? && e.dxTotal.Some? && e.dyTotal.Some? ==> Whole(e.dxTotal.value) && Whole(e.dyTotal.value)
  }

  /** As long as totals are whole, the steps injected add up to the motion, whatever came between. */
  lemma {:induction false} WholeMotionAddsUp(h: Holding, events: seq<Event>)
    requires PerformAll(h, events).Some? && Whole(h.motion.0) && Whole(h.motion.1)
    requires forall i :: 0 <= i < |events| ==> WholeTotals(events[i])
    ensures var after := PerformAll(h, events).value;
            && Whole(after.held.motion.0) && Whole(after.held.motion.1)
            && Moved(after.log) == (after.held.motion.0.Floor - h.motion.0.Floor,
                                    after.held.motion.1.Floor - h.motion.1.Floor)
  {
    hide Injects, Then, Accepts, Moved, Whole, Round, WholeTotals;
    if events == [] {
      StandsStill([]);
    } else {
      var n := |events| - 1;
      WholeMotionAddsUp(h, events[..n]);
      var before := PerformAll(h, events[..n]).value;
      MovedConcat(before.log, Injects(before.held, events[n]));
      MotionStep(before.held, events[n]);
    }
  }

  lemma MotionStep(h: Holding, e: Event)
    requires Accepts(h, e) && Whole(h.motion.0) && Whole(h.motion.1)
    requires WholeTotals(e)
    ensures var after := Then(h, e);
            && Whole(after.motion.0) && Whole(after.motion.1)
            && Moved(Injects(h, e))
               == (after.motion.0.Floor - h.motion.0.Floor, after.motion.1.Floor - h.motion.1.Floor)
  {
    hide Round;
    if e.Relative? {
      RoundWhole(e.dxTotal.value, h.motion.0);
      RoundWhole(e.dyTotal.value, h.motion.1);
      var step := Injects(h, e);
      assert step[..0] == [] && Moved(step[..0]) == (0, 0);
    } else {
      OnlyRelativeMoves(h, e);
    }
  }

  // ----- The session and what it holds -----

  /** The native session; injections fail only after it was stopped. */
  class NativeSession {
    var live: bool
    ghost var injected: seq<Native>

    constructor ()
      ensures live && injected == []
    {
      live := true;
      injected := [];
    }

    method Input(e: Native) returns (ok: bool)
      modifies this`injected
      ensures ok == live
      ensures injected == if ok then old(injected) + [e] else old(injected)
    {
      ok := live;
      if ok {
        injected := injected + [e];
      }
    }

    method Stop()
      modifies this`live
      ensures !live
    {
      live := false;
    }
  }

  class Held {
    var keys: set<int>
    var buttons: set<int>
    var relative: (real, real)
    const session: NativeSession

    ghost function Now(): Holding
      reads this
    {
      Holding(keys, buttons, relative)
    }

    /** Exactly what was pressed and not yet released is held. */
    ghost predicate Valid()
      reads this, session
    {
      session.live && PressAll(Some({}), session.injected) == Some(Now().Controls())
    }

    constructor (session: NativeSession)
      requires session.live && session.injected == []
      ensures Valid() && this.session == session && Now() == Holding({}, {}, (0.0, 0.0))
    {
      this.session := session;
      keys, buttons, relative := {}, {}, (0.0, 0.0);
      new;
      assert Now().Controls() == {};
    }

    /** Injects `es` in order. */
    method Send(es: seq<Native>)
      requires session.live
      modifies session`injected
      ensures session.injected == old(session.injected) + es
    {
      for i := 0 to |es|
        invariant session.injected == old(session.injected) + es[..i]
      {
        var _ := session.Input(es[i]);
        assert es[..i + 1] == es[..i] + [es[i]];
      }
      assert es[..|es|] == es;
    }

    /** Keys first, then buttons, each in ascending order. */
    method ReleaseAll()
      requires session.live
      modifies this`keys, this`buttons, session`injected
      ensures Now() == old(Now()).Released()
      ensures session.injected == old(session.injected) + Ups(old(Now()).Order())
    {
      hide Ascending;
      Send(Ups(Keys(Ascending(keys))));
      Send(Ups(Buttons(Ascending(buttons))));
      assert Ups(Now().Order()) == Ups(Keys(Ascending(keys))) + Ups(Buttons(Ascending(buttons)));
      keys, buttons := {}, {};
    }

    /** One key or button goes down or up, unless it already is. */
    method Change(c: Control, code: int, down: bool, held: set<int>) returns (now: set<int>)
      requires session.live
      modifies session`injected
      ensures now == if down then held + {code} else held - {code}
      ensures session.injected == old(session.injected) + Changes(held, c, code, down)
    {
      now := held;
      if down {
        if code !in held {
          now := held + {code};
          var _ := session.Input(Down(c));
        }
      } else if code in held {
        now := held - {code};
        var _ := session.Input(Up(c));
      }
    }

    /** What one event does, whatever was down before. */
    method Perform(e: Event) returns (ok: bool)
      requires session.live
      modifies this, session`injected
      ensures ok == Accepts(old(Now()), e)
      ensures Now() == if ok then Then(old(Now()), e) else old(Now())
      ensures session.injected == old(session.injected) + if ok then Injects(old(Now()), e) else []
    {
      hide Ascending, Point, Changes, Holding.Order;
      match e {
        case KeyEvent(code, down) =>
          if code.None? {
            return false;
          }
          keys := Change(Key(code.value), code.value, down, keys);
        case Text(text) =>
          if !ValidText(text) {
            return false;
          }
          ReleaseAll();
          var _ := session.Input(Typed(text));
        case Absolute(x, y) =>
          var p := Point(x, y);
          if p.None? {
            return false;
          }
          var _ := session.Input(MovedTo(p.value.0, p.value.1));
        case Relative(dxTotal, dyTotal) =>
          ok := Move(dxTotal, dyTotal);
          return;
        case ButtonEvent(button, down, atX, atY) =>
          ok := Click(button, down, atX, atY);
          return;
        case Wheel(dx, dy) =>
          if !Within(dx, 1200.0) || !Within(dy, 1200.0) {
            return false;
          }
          Send([WheelY(-Round(dy.value)), WheelX(-Round(dx.value))]);
        case StateEvent(codes, held) =>
          if !ValidState(codes, held) {
            return false;
          }
          Hold(WantedKeys(codes), WantedButtons(held));
        case Reset =>
          ReleaseAll();
      }
      ok := true;
    }

    method Move(dxTotal: Number, dyTotal: Number) returns (ok: bool)
      requires session.live
      modifies this`relative, session`injected
      ensures var e := Relative(dxTotal, dyTotal);
              && ok == Accepts(old(Now()), e)
              && Now() == (if ok then Then(old(Now()), e) else old(Now()))
              && session.injected == old(session.injected) + if ok then Injects(old(Now()), e) else []
    {
      if !Within(dxTotal, 2_000_000_000.0) || !Within(dyTotal, 2_000_000_000.0) {
        return false;
      }
      var dx, dy := Round(dxTotal.value - relative.0), Round(dyTotal.value - relative.1);
      if !(-MAX_STEP <= dx <= MAX_STEP) || !(-MAX_STEP <= dy <= MAX_STEP) {
        return false;
      }
      relative := (dxTotal.value, dyTotal.value);
      var _ := session.Input(MovedBy(dx, dy));
      ok := true;
    }

    method Click(button: nat, down: bool, atX: Option<Number>, atY: Option<Number>) returns (ok: bool)
      requires session.live
      modifies this`buttons, session`injected
      ensures var e := ButtonEvent(button, down, atX, atY);
              && ok == Accepts(old(Now()), e)
              && Now() == (if ok then Then(old(Now()), e) else old(Now()))
              && session.injected == old(session.injected) + if ok then Injects(old(Now()), e) else []
    {
      hide Point, Changes;
      if button > 4 {
        return false;
      }
      if atX.Some? && atY.Some? {
        var p := Point(atX.value, atY.value);
        if p.None? {
          return false;
        }
        var _ := session.Input(MovedTo(p.value.0, p.value.1));
      }
      buttons := Change(Button(button + 1), button + 1, down, buttons);
      ok := true;
    }

    /** Whatever is down but not wanted goes up, and the reverse: keys, then buttons. */
    method Hold(wantedKeys: set<int>, wantedButtons: set<int>)
      requires session.live
      modifies this`keys, this`buttons, session`injected
      ensures Now() == old(Now()).(keys := wantedKeys, buttons := wantedButtons)
      ensures session.injected
              == old(session.injected)
                 + (Ups(Keys(Ascending(old(keys) - wantedKeys))) + Downs(Keys(Ascending(wantedKeys - old(keys))))
                    + Ups(Buttons(Ascending(old(buttons) - wantedButtons)))
                    + Downs(Buttons(Ascending(wantedButtons - old(buttons)))))
    {
      hide Ascending, Ups, Downs, Keys, Buttons;
      Send(Ups(Keys(Ascending(keys - wantedKeys))));
      Send(Downs(Keys(Ascending(wantedKeys - keys))));
      Send(Ups(Buttons(Ascending(buttons - wantedButtons))));
      Send(Downs(Buttons(Ascending(wantedButtons - buttons))));
      keys, buttons := wantedKeys, wantedButtons;
    }

    method Apply(e: Event) returns (ok: bool)
      requires Valid()
      modifies this, session`injected
      ensures Valid() && ok == Accepts(old(Now()), e)
      ensures Now() == if ok then Then(old(Now()), e) else old(Now())
      ensures session.injected == old(session.injected) + if ok then Injects(old(Now()), e) else []
    {
      hide PressAll, Accepts, Then, Injects, Holding.Controls;
      ghost var before, log := Now(), session.injected;
      ok := Perform(e);
      if ok {
        AcceptedFits(before, e);
        PressAllConcat(Some({}), log, Injects(before, e));
      } else {
        assert session.injected == log;
      }
    }

    method Release()
      requires Valid()
      modifies this`keys, this`buttons, session`injected
      ensures Valid() && Now() == old(Now()).Released()
      ensures session.injected == old(session.injected) + Ups(old(Now()).Order())
    {
      hide PressAll, Ups, Holding.Order;
      ReleasesAll(Now());
      PressAllConcat(Some({}), session.injected, Ups(Now().Order()));
      NothingHeld(Now());
      ReleaseAll();
    }
  }
}
