/** The arithmetic fact tables: multiplication tables, squares, cubes and
    powers, each built row by row for multipliers or exponents 1..limit. */
module MathTables {

  datatype TableRow = TableRow(multiplicand: int, multiplier: int, result: int)

  /** A row of the squares or the cubes list. */
  datatype FactRow = FactRow(n: int, result: int)

  datatype PowerRow = PowerRow(base: int, exponent: int, result: int)

  /** base raised to a non-negative integral exponent. */
  function Pow(base: int, exp: nat): int
    decreases exp
  {
    if exp == 0 then 1 else base * Pow(base, exp - 1)
  }

  /** The multiplication table of `number`, one row per multiplier 1..limit. */
  method GetTable(number: int, limit: nat) returns (rows: seq<TableRow>)
    ensures |rows| == limit
    ensures forall i :: 0 <= i < |rows| ==>
              rows[i].multiplicand == number && rows[i].multiplier == i + 1
    ensures forall i :: 0 <= i < |rows| ==> rows[i].result == rows[i].multiplicand * rows[i].multiplier
    ensures limit > 0 ==> rows[0].result == number
    ensures forall i :: 0 <= i < |rows| - 1 ==> rows[i + 1].result == rows[i].result + number
  {
    rows := [];
    while |rows| < limit
      invariant |rows| <= limit
      invariant forall i :: 0 <= i < |rows| ==> rows[i] == TableRow(number, i + 1, number * (i + 1))
    {
      var multiplier := |rows| + 1;
      rows := rows + [TableRow(number, multiplier, number * multiplier)];
    }
  }

  /** n and n² for n = 1..limit. */
  method GetSquares(limit: nat) returns (rows: seq<FactRow>)
    ensures |rows| == limit
    ensures forall i :: 0 <= i < |rows| ==> rows[i].n == i + 1 && rows[i].result == rows[i].n * rows[i].n
    ensures forall i :: 0 <= i < |rows| - 1 ==> rows[i + 1].result == rows[i].result + 2 * rows[i].n + 1
  {
    rows := [];
    while |rows| < limit
      invariant |rows| <= limit
      invariant forall i :: 0 <= i < |rows| ==> rows[i] == FactRow(i + 1, (i + 1) * (i + 1))
    {
      var n := |rows| + 1;
      rows := rows + [FactRow(n, n * n)];
    }
  }

  /** n and n³ for n = 1..limit. */
  method GetCubes(limit: nat) returns (rows: seq<FactRow>)
    ensures |rows| == limit
    ensures forall i :: 0 <= i < |rows| ==> rows[i].n == i + 1 && rows[i].result == rows[i].n * rows[i].n * rows[i].n
    ensures forall i :: 0 <= i < |rows| - 1 ==>
              rows[i + 1].result == rows[i].result + 3 * rows[i].n * rows[i].n + 3 * rows[i].n + 1
  {
    rows := [];
    while |rows| < limit
      invariant |rows| <= limit
      invariant forall i :: 0 <= i < |rows| ==> rows[i] == FactRow(i + 1, (i + 1) * (i + 1) * (i + 1))
    {
      var n := |rows| + 1;
      rows := rows + [FactRow(n, n * n * n)];
    }
  }

  /** The powers of one base for exponents 1..limit. */
  ghost predicate IsPowerTable(rows: seq<PowerRow>, base: int, limit: nat) {
    && |rows| == limit
    && (forall i :: 0 <= i < |rows| ==>
          rows[i].base == base && rows[i].exponent == i + 1 && rows[i].result == Pow(base, i + 1))
  }

  /** base^1 .. base^limit; each row is the previous one times the base. */
  method GetPowers(base: int, limit: nat) returns (rows: seq<PowerRow>)
    ensures IsPowerTable(rows, base, limit)
    ensures limit > 0 ==> rows[0].result == base
    ensures forall i :: 0 <= i < |rows| - 1 ==> rows[i + 1].result == rows[i].result * base
  {
    rows := [];
    while |rows| < limit
      invariant |rows| <= limit
      invariant forall i :: 0 <= i < |rows| ==> rows[i] == PowerRow(base, i + 1, Pow(base, i + 1))
    {
      var exponent := |rows| + 1;
      rows := rows + [PowerRow(base, exponent, Pow(base, exponent))];
    }
  }

  /** The powers reference page: bases 2, 3, 5, 6 and 7 up to exponents
      25, 12, 10, 8 and 8. */
  method GetAllPowers() returns (tables: map<int, seq<PowerRow>>)
    ensures tables.Keys == {2, 3, 5, 6, 7}
    ensures 2 in tables && IsPowerTable(tables[2], 2, 25)
    ensures 3 in tables && IsPowerTable(tables[3], 3, 12)
    ensures 5 in tables && IsPowerTable(tables[5], 5, 10)
    ensures 6 in tables && IsPowerTable(tables[6], 6, 8)
    ensures 7 in tables && IsPowerTable(tables[7], 7, 8)
  {
    var twos := GetPowers(2, 25);
    var threes := GetPowers(3, 12);
    var fives := GetPowers(5, 10);
    var sixes := GetPowers(6, 8);
    var sevens := GetPowers(7, 8);
    tables := map[2 := twos, 3 := threes, 5 := fives, 6 := sixes, 7 := sevens];
  }
}
