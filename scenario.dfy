/** A worked example of the read passes: five rows, the third with a blank
    region and the fourth with a negative quantity. */
module Scenario {
  import opened Wrappers
  import opened Text
  import opened Seqs
  import opened Records
  import opened Validate

  /** A coerced row with the given id, region and quantity. */
  function SampleRow(id: string, region: string, qty: int): CoercedRow {
    CoercedRow(id, Some(Timestamp(Date(2020, 1, 1), 0)), region, "Boston", "Bars", "Carrot",
               Some(qty), Some(1.5), Some(3.0))
  }

  /** A text whose first character is not whitespace survives stripping. */
  lemma StripNonEmpty(s: string)
    requires s != [] && !IsSpace(s[0])
    ensures Strip(s) != ""
  {
    StripEmptyIffBlank(s);
  }

  /** One element more, filtered. */
  lemma FilterSnoc<T>(s: seq<T>, x: T, p: T -> bool, fs: seq<T>)
    requires Filter(s, p) == fs
    ensures Filter(s + [x], p) == fs + if p(x) then [x] else []
  {
    assert (s + [x])[..|s|] == s;
  }

  /** A row passes the mask when its id, region, category and product are
      not blank and its date and total price are present. */
  lemma SampleRowAdmitted(id: string, region: string, qty: int)
    requires id != "" && region != "" && !IsSpace(region[0])
    ensures Admitted(SampleRow(id, region, qty))
  {
    StripNonEmpty(region);
    StripNonEmpty("Bars");
    StripNonEmpty("Carrot");
  }

  lemma BlankRegionRejected(id: string, qty: int)
    ensures !Admitted(SampleRow(id, "", qty))
  {
    assert Strip("") == "";
  }

  /** Filtering four elements of which only the third fails `p`. */
  lemma FilterDropsThirdOfFour<T>(a: T, b: T, c: T, d: T, p: T -> bool)
    requires p(a) && p(b) && !p(c) && p(d)
    ensures Filter([a, b, c, d], p) == [a, b, d]
  {
    FilterSnoc([], a, p, []);
    assert [] + [a] == [a];
    FilterSnoc([a], b, p, [a]);
    assert [a] + [b] == [a, b];
    FilterSnoc([a, b], c, p, [a, b]);
    assert [a, b] + [c] == [a, b, c];
    FilterSnoc([a, b, c], d, p, [a, b]);
    assert [a, b, c] + [d] == [a, b, c, d];
  }

  /** Filtering five elements of which only the third fails `p`. */
  lemma FilterDropsThird<T>(a: T, b: T, c: T, d: T, e: T, p: T -> bool)
    requires p(a) && p(b) && !p(c) && p(d) && p(e)
    ensures Filter([a, b, c, d, e], p) == [a, b, d, e]
  {
    FilterDropsThirdOfFour(a, b, c, d, p);
    FilterSnoc([a, b, c, d], e, p, [a, b, d]);
    assert [a, b, c, d] + [e] == [a, b, c, d, e];
  }

  lemma MapSeqFour<T, U>(f: T -> U, a: T, b: T, c: T, d: T)
    ensures MapSeq(f, [a, b, c, d]) == [f(a), f(b), f(c), f(d)]
  {
    assert |MapSeq(f, [a, b, c, d])| == 4;
  }

  /** The passes over five rows of which the third fails the mask and the
      fourth is negative. */
  lemma PassesFive(a: CoercedRow, b: CoercedRow, c: CoercedRow, d: CoercedRow, e: CoercedRow)
    requires Admitted(a) && Admitted(b) && !Admitted(c) && Admitted(d) && Admitted(e)
    requires NonNegative(ToRecord(a)) && NonNegative(ToRecord(b)) && NonNegative(ToRecord(e))
    requires !NonNegative(ToRecord(d))
    ensures Passes([a, b, c, d, e]) == Cleaned([ToRecord(a), ToRecord(b), ToRecord(e)], 1)
  {
    FilterDropsThird(a, b, c, d, e, Admitted);
    MapSeqFour(ToRecord, a, b, d, e);
    var recs := [ToRecord(a), ToRecord(b), ToRecord(d), ToRecord(e)];
    FilterDropsThirdOfFour(recs[0], recs[1], recs[2], recs[3], NonNegative);
  }

  lemma SampleRowSign(id: string, region: string, qty: int)
    ensures NonNegative(ToRecord(SampleRow(id, region, qty))) <==> qty >= 0
  {
  }

  /** Rows 1, 2, 4 and 5 pass the mask, row 3 does not. */
  lemma SampleMask()
    ensures Admitted(SampleRow("1", "East", 2)) && Admitted(SampleRow("2", "East", 2))
    ensures !Admitted(SampleRow("3", "", 2))
    ensures Admitted(SampleRow("4", "East", -1)) && Admitted(SampleRow("5", "East", 2))
  {
    SampleRowAdmitted("1", "East", 2);
    SampleRowAdmitted("2", "East", 2);
    BlankRegionRejected("3", 2);
    SampleRowAdmitted("4", "East", -1);
    SampleRowAdmitted("5", "East", 2);
  }

  /** The two passes keep rows 1, 2 and 5 and report one row removed. */
  lemma SamplePasses()
    ensures Passes([SampleRow("1", "East", 2), SampleRow("2", "East", 2), SampleRow("3", "", 2),
                    SampleRow("4", "East", -1), SampleRow("5", "East", 2)])
         == Cleaned([ToRecord(SampleRow("1", "East", 2)), ToRecord(SampleRow("2", "East", 2)),
                     ToRecord(SampleRow("5", "East", 2))], 1)
  {
    SampleMask();
    SampleRowSign("1", "East", 2);
    SampleRowSign("2", "East", 2);
    SampleRowSign("4", "East", -1);
    SampleRowSign("5", "East", 2);
    PassesFive(SampleRow("1", "East", 2), SampleRow("2", "East", 2), SampleRow("3", "", 2),
               SampleRow("4", "East", -1), SampleRow("5", "East", 2));
  }
}
