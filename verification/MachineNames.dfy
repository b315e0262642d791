/** The names given to machines, and why no two of them are equal. */
module MachineNames {
  import opened Common
  import opened Text

  /** The ARM name of a machine. */
  datatype MachineName = MachineName(text: string)

  /** `_get_machine_name_prefix`: whole thousands are abbreviated. */
  function Prefix(count: nat): string {
    if count >= 1000 && count % 1000 == 0 then "scale" + Decimal(count / 1000) + "k"
    else "scale" + Decimal(count)
  }

  /** The name of machine `i`, counted from zero, in a run that asks for `count` machines. */
  function Name(count: nat, i: nat): MachineName {
    MachineName(Prefix(count) + "-machine-" + Decimal(i + 1))
  }

  /** Whole thousands are written with a `k`, and nothing else is. */
  lemma PrefixIs(count: nat, thousands: nat)
    ensures thousands > 0 ==> Prefix(1000 * thousands) == "scale" + Decimal(thousands) + "k"
    ensures count == 0 || count % 1000 != 0 ==> Prefix(count) == "scale" + Decimal(count)
  {
    assert (1000 * thousands) / 1000 == thousands && (1000 * thousands) % 1000 == 0;
  }

  /** Machines are counted from one. */
  lemma NameIs(count: nat, i: nat)
    ensures Name(count, i).text == Prefix(count) + "-machine-" + Decimal(i + 1)
    ensures Name(100, 0).text == "scale100-machine-1"
  {
    assert Decimal(100) == Decimal(10) + "0" == Decimal(1) + "00";
  }

  function Names(count: int): (names: seq<MachineName>)
    ensures |names| == Max(0, count)
    ensures forall i :: 0 <= i < |names| ==> names[i] == Name(count, i)
  {
    seq(Max(0, count), i requires 0 <= i && count > 0 => Name(count, i))
  }

  function ParsePrefix(s: string): Option<nat> {
    if |s| <= 5 || s[..5] != "scale" then None
    else
      var t := s[5..];
      if t[|t| - 1] == 'k' && AllDigits(t[..|t| - 1]) then Some(1000 * Value(t[..|t| - 1]))
      else if AllDigits(t) then Some(Value(t))
      else None
  }

  /** Read the size of the run and the index of the machine back from a name. */
  function ParseName(name: MachineName): Option<(nat, nat)> {
    var parts := Split(name.text, '-');
    if |parts| == 3 && parts[1] == "machine" && AllDigits(parts[2]) && Value(parts[2]) > 0 then
      match ParsePrefix(parts[0])
      case Some(count) => Some((count, Value(parts[2]) - 1))
      case None => None
    else None
  }

  lemma ParsePrefixOfPrefix(count: nat)
    ensures ParsePrefix(Prefix(count)) == Some(count) && '-' !in Prefix(count)
  {
    var s := Prefix(count);
    var t := s[5..];
    assert s[..5] == "scale";
    if count >= 1000 && count % 1000 == 0 {
      ValueOfDecimal(count / 1000);
      assert t == Decimal(count / 1000) + "k";
      assert t[..|t| - 1] == Decimal(count / 1000);
    } else {
      ValueOfDecimal(count);
      assert t == Decimal(count);
      assert IsDigit(t[|t| - 1]);
    }
  }

  lemma ParseNameOfName(count: nat, i: nat)
    ensures ParseName(Name(count, i)) == Some((count, i))
  {
    var prefix, number := Prefix(count), Decimal(i + 1);
    ParsePrefixOfPrefix(count);
    ValueOfDecimal(i + 1);
    NameIsJoined(prefix, number);
    SplitJoin([prefix, "machine", number], '-');
  }

  lemma NameIsJoined(prefix: string, number: string)
    ensures prefix + "-machine-" + number == Join([prefix, "machine", number], '-')
  {
    var tail := ["machine", number];
    assert [prefix, "machine", number][1..] == tail && tail[1..] == [number];
    assert Join(tail, '-') == "machine-" + number;
  }

  /** Names never collide, within one run or across runs of different sizes. */
  lemma NamesAreInjective(count: nat, i: nat, count': nat, i': nat)
    requires Name(count, i) == Name(count', i')
    ensures count == count' && i == i'
  {
    ParseNameOfName(count, i);
    ParseNameOfName(count', i');
  }

  ghost predicate Distinct<T(!new)>(s: seq<T>) {
    forall i, j :: 0 <= i < j < |s| ==> s[i] != s[j]
  }

  lemma NamesAreDistinct(count: int)
    ensures Distinct(Names(count))
  {
    forall i, j | 0 <= i < j < |Names(count)|
      ensures Names(count)[i] != Names(count)[j]
    {
      if Names(count)[i] == Names(count)[j] {
        NamesAreInjective(count, i, count, j);
      }
    }
  }

  lemma {:induction false} DistinctSize<T(!new)>(s: seq<T>)
    requires Distinct(s)
    ensures |set x | x in s| == |s|
  {
    if s != [] {
      var init, last := s[..|s| - 1], s[|s| - 1];
      DistinctSize(init);
      assert (set x | x in s) == (set x | x in init) + {last};
    }
  }
}
