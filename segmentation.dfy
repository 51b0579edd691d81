/**
 * The display knobs of `Segmentation`: how much of the segmentation mask is blended
 * into the image, in steps of 0.25 between 0 and 1, and whether class labels are
 * drawn. `blend` is kept as a whole number of quarters, so 0.75 is 3.
 */
module Segment {
  /** 1.0 in quarters. */
  const FullBlend: nat := 4

  /** The two knobs; `quarters` is `blend / 0.25`. */
  datatype Knobs = Knobs(quarters: int, showLabels: bool)

  predicate InRange(k: Knobs) {
    0 <= k.quarters <= FullBlend
  }

  /** `blend = 0.75`, `show_labels = True`. */
  function Initial(): (k: Knobs)
    ensures InRange(k) && k.quarters * 4 == 3 * FullBlend && k.showLabels
  {
    Knobs(3, true)
  }

  function Max(a: int, b: int): int { if a < b then b else a }
  function Min(a: int, b: int): int { if a < b then a else b }

  /** `handle_command`: a key changes at most one knob and keeps `blend` within [0, 1]. */
  function Command(k: Knobs, key: char): (r: Knobs)
    ensures InRange(k) ==> InRange(r)
    ensures r.quarters == k.quarters || r.showLabels == k.showLabels
  {
    if key == '-' then k.(quarters := Max(0, k.quarters - 1))
    else if key == '+' then k.(quarters := Min(FullBlend, k.quarters + 1))
    else if key == 'l' then k.(showLabels := !k.showLabels)
    else k
  }

  /** A run of commands, in order. */
  function Commands(k: Knobs, keys: seq<char>): Knobs
    decreases keys
  {
    if keys == [] then k else Commands(Command(k, keys[0]), keys[1..])
  }

  /**
   * What each key does: `'-'` lowers `blend` by a quarter but not below 0, `'+'` raises
   * it by a quarter but not above 1; both leave `show_labels` alone. `'l'` flips
   * `show_labels` and leaves `blend` alone. Every other key changes nothing.
   */
  lemma CommandEffects(k: Knobs, key: char)
    requires InRange(k)
    ensures var k' := Command(k, key);
      && (key == '-' ==>
            && k'.showLabels == k.showLabels
            && (k.quarters > 0 ==> k'.quarters == k.quarters - 1)
            && (k.quarters == 0 ==> k'.quarters == 0))
      && (key == '+' ==>
            && k'.showLabels == k.showLabels
            && (k.quarters < FullBlend ==> k'.quarters == k.quarters + 1)
            && (k.quarters == FullBlend ==> k'.quarters == FullBlend))
      && (key == 'l' ==> k'.quarters == k.quarters && k'.showLabels == !k.showLabels)
      && (key !in {'-', '+', 'l'} ==> k' == k)
  {
  }

  /** `blend` stays within [0, 1] whatever keys are pressed. */
  lemma {:induction false} CommandsInRange(k: Knobs, keys: seq<char>)
    requires InRange(k)
    ensures InRange(Commands(k, keys))
    decreases keys
  {
    if keys != [] {
      CommandsInRange(Command(k, keys[0]), keys[1..]);
    }
  }

  /** Pressing `'l'` twice restores the knobs. */
  lemma ToggleTwice(k: Knobs)
    ensures Commands(k, ['l', 'l']) == k
  {
    var k1 := Command(k, 'l');
    assert ['l', 'l'][1..] == ['l'];
    assert ['l'][1..] == [];
    assert Commands(k1, ['l']) == Commands(Command(k1, 'l'), []);
  }

  /** Enough presses of `'+'` reach full blend and leave `show_labels` alone. */
  lemma {:induction false} RaiseToFull(k: Knobs, n: nat)
    requires InRange(k) && FullBlend - k.quarters <= n
    ensures Commands(k, seq(n, _ => '+')) == k.(quarters := FullBlend)
    decreases n
  {
    if n > 0 {
      var keys := seq(n, _ => '+');
      assert keys[0] == '+' && keys[1..] == seq(n - 1, _ => '+');
      var k' := Command(k, '+');
      if k.quarters < FullBlend {
        RaiseToFull(k', n - 1);
      } else {
        RaiseToFull(k, n - 1);
      }
    }
  }

  /** Keys that are not commands never change the knobs. */
  lemma {:induction false} OtherKeysIgnored(k: Knobs, keys: seq<char>)
    requires forall i :: 0 <= i < |keys| ==> keys[i] !in {'-', '+', 'l'}
    ensures Commands(k, keys) == k
    decreases keys
  {
    if keys != [] {
      OtherKeysIgnored(k, keys[1..]);
    }
  }

  /** The segmentation unit's knobs. */
  class Segmentation {
    var quarters: int
    var showLabels: bool

    function State(): Knobs
      reads this
    {
      Knobs(quarters, showLabels)
    }

    /** The blend stays within the table of quarters. */
    predicate Valid()
      reads this
    {
      InRange(State())
    }

    constructor ()
      ensures Valid() && State() == Initial()
    {
      quarters, showLabels := 3, true;
    }

    method HandleCommand(key: char)
      requires Valid()
      modifies this
      ensures Valid() && State() == Command(old(State()), key)
    {
      if key == '-' {
        quarters := if quarters - 1 < 0 then 0 else quarters - 1;
      } else if key == '+' {
        quarters := if quarters + 1 > FullBlend then FullBlend else quarters + 1;
      } else if key == 'l' {
        showLabels := !showLabels;
      }
    }
  }
}
