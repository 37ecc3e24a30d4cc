/**
 * The multiplication-sign processor followed by the number-and-unit
 * processor, the order in which the corrections are chained. The first-letter
 * capitalisation that runs before them and the header-colon removal that runs
 * after them are not part of this model; on the texts below they change
 * nothing.
 */
module FixedCorrections {
  import MultiplicationSign
  import SpaceBetweenNumberAndUnit
  import Text

  function Correct(s: string): string
  {
    SpaceBetweenNumberAndUnit.Modify(MultiplicationSign.Modify(s))
  }

  /** Both processors only add or replace around numbers: the digits of the text survive the chain. */
  lemma DigitsKept(s: string)
    ensures Text.Digits(Correct(s)) == Text.Digits(s)
  {
    var m := MultiplicationSign.Modify(s);
    MultiplicationSign.DigitsKept(s);
    SpaceBetweenNumberAndUnit.DigitsKept(m);
  }

  lemma Ropes()
    ensures Correct("2*50m, 2x50 m, 2X50 m") == "2×50 m, 2×50 m, 2×50 m"
  {
    MultiplicationSign.ThreeRopes();
    RopesPlain();
    SpaceBetweenNumberAndUnit.PlainUnchanged("2×50 m, 2×50 m, 2×50 m");
  }

  /** After the first processor, every number is followed by `×` or a space. */
  lemma RopesPlain()
    ensures SpaceBetweenNumberAndUnit.Plain("2×50 m, 2×50 m, 2×50 m")
  {
    var p := "2×50 m, 2×50 m, 2×50 m";
    forall k | 0 <= k < |p| - 1 ensures SpaceBetweenNumberAndUnit.Harmless(p, k) {
      assert p[k] != 'L';
      if Text.IsDigit(p[k]) {
        assert p[k + 1] == '×' || p[k + 1] == '0' || p[k + 1] == ' ';
      }
    }
  }

  lemma EmptyText()
    ensures Correct("") == ""
  {
    MultiplicationSign.QuietUnchanged("");
    SpaceBetweenNumberAndUnit.EmptyText();
  }

  lemma LongRope()
    ensures Correct("Prendre une corde 10-15m ou 2x50m ou 2X50m") == "Prendre une corde 10-15 m ou 2×50 m ou 2×50 m"
  {
    MultiplicationSign.LongRope();
    SpaceBetweenNumberAndUnit.LongRope();
  }

  lemma HoursAndMinutes()
    ensures Correct("1h30. Compter 1h15. ou 1h10") == "1 h 30. Compter 1 h 15. ou 1 h 10"
  {
    MultiplicationSign.QuietUnchanged("1h30. Compter 1h15. ou 1h10");
    SpaceBetweenNumberAndUnit.Durations();
  }
}
