/**
 * The podracer records: a base `Podracer` with three mutable fields and a
 * `repair` method, and two variants that each add one mutating method
 * (`boost` on Anakin's pod, `flame_jet` on Sebulba's pod). The hierarchy never
 * overrides anything, so one class with a fixed variant tag stands for all
 * three; a variant-only method requires the matching tag.
 */
module Podracers {

  /** Which of the three classes a podracer was built as. */
  datatype Variant = Generic | AnakinsPod | SebulbasPod

  const Repaired: string := "repaired"
  const Trashed: string := "trashed"

  class Podracer {
    const variant: Variant
    var maxSpeed: int
    var condition: string
    var price: int

    /** Builds a podracer holding exactly the three given attribute values. */
    constructor (variant: Variant, maxSpeed: int, condition: string, price: int)
      ensures this.variant == variant
      ensures this.maxSpeed == maxSpeed && this.condition == condition && this.price == price
    {
      this.variant := variant;
      this.maxSpeed := maxSpeed;
      this.condition := condition;
      this.price := price;
    }

    /** Overwrites the condition with "repaired"; speed and price stay. */
    method Repair()
      modifies this`condition
      ensures condition == Repaired
      ensures maxSpeed == old(maxSpeed) && price == old(price)
    {
      condition := Repaired;
    }

    /** Doubles the top speed; condition and price stay. */
    method Boost()
      requires variant == AnakinsPod
      modifies this`maxSpeed
      ensures maxSpeed == 2 * old(maxSpeed)
      ensures condition == old(condition) && price == old(price)
    {
      maxSpeed := maxSpeed * 2;
    }

    /**
     * Sets another podracer's condition to "trashed". Only that one field of
     * `other` changes; this pod's own fields change only when `other` is
     * this very pod.
     */
    method FlameJet(other: Podracer)
      requires variant == SebulbasPod
      modifies other`condition
      ensures other.condition == Trashed
      ensures other.maxSpeed == old(other.maxSpeed) && other.price == old(other.price)
      ensures maxSpeed == old(maxSpeed) && price == old(price)
      ensures other != this ==> condition == old(condition)
    {
      other.condition := Trashed;
    }
  }

  /**
   * The script's scenario: a generic pod, Anakin's pod boosted from 700, and
   * Sebulba's pod flaming the generic one. Returns the speeds and conditions
   * the script reports.
   */
  method Race() returns (anakinSpeed: int, anakinCondition: string,
                         sebulbaSpeed: int, sebulbaCondition: string,
                         genericSpeed: int, genericCondition: string)
    ensures anakinSpeed == 1400 && anakinCondition == "perfect"
    ensures sebulbaSpeed == 600 && sebulbaCondition == "perfect"
    ensures genericSpeed == 500 && genericCondition == "trashed"
  {
    var podracer := new Podracer(Generic, 500, "perfect", 1000);
    var anakin := new Podracer(AnakinsPod, 700, "perfect", 1500);
    anakin.Boost();
    var sebulba := new Podracer(SebulbasPod, 600, "perfect", 1200);
    sebulba.FlameJet(podracer);
    anakinSpeed, anakinCondition := anakin.maxSpeed, anakin.condition;
    sebulbaSpeed, sebulbaCondition := sebulba.maxSpeed, sebulba.condition;
    genericSpeed, genericCondition := podracer.maxSpeed, podracer.condition;
  }
}
