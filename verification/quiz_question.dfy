/** One quiz question for the integer categories: operands drawn from the
    category's range (a configured `min`/`max` wins unless it is 0 or absent),
    the exact answer, an id that encodes the operands, and the options. */
module QuizQuestion {
  import opened Wrappers
  import opened Decimal
  import opened Categories
  import opened MathTables
  import opened QuizOptions
  import opened Draws

  /** The fields of the quiz configuration that generation reads. */
  datatype Config = Config(min: Option<int>, max: Option<int>)

  datatype Question = Question(
    id: string,
    text: string,
    answer: int,
    options: seq<int>,
    category: MathCategory)

  /** The random draws one question consumes: the two operand draws, the
      offsets tried for wrong options, and the shuffle. */
  datatype QuizDraws = QuizDraws(first: int, second: int, deltas: seq<int>, swaps: seq<(nat, nat)>)

  /** `config.min || fallback`: an absent or zero setting falls back. */
  function ConfiguredOr(setting: Option<int>, fallback: int): int {
    if setting.Some? && setting.value != 0 then setting.value else fallback
  }

  // ---- Question ids ----

  /** The two halves around the first occurrence of `c`. */
  function SplitAt(s: string, c: char): Option<(string, string)> {
    if |s| == 0 then None
    else if s[0] == c then Some(([], s[1..]))
    else match SplitAt(s[1..], c)
      case None => None
      case Some(halves) => Some(([s[0]] + halves.0, halves.1))
  }

  lemma {:induction false} SplitAtJoin(a: string, c: char, b: string)
    requires c !in a
    ensures SplitAt(a + [c] + b, c) == Some((a, b))
  {
    if |a| > 0 {
      var s := a + [c] + b;
      assert s[0] == a[0] && s[0] != c;
      assert s[1..] == a[1..] + [c] + b;
      SplitAtJoin(a[1..], c, b);
      assert [a[0]] + a[1..] == a;
    } else {
      assert a + [c] + b == [c] + b;
    }
  }

  lemma NoSeparatorInNumber(n: int, c: char)
    requires !IsDigit(c) && c != '-'
    ensures c !in IntToString(n)
  {
  }

  function TableId(num: int, mult: int): string {
    IntToString(num) + "x" + IntToString(mult)
  }

  function SquareId(num: int): string {
    "sq" + IntToString(num)
  }

  function CubeId(num: int): string {
    "cb" + IntToString(num)
  }

  function PowerId(base: int, exp: int): string {
    "pw" + IntToString(base) + "^" + IntToString(exp)
  }

  /** Reads the two numbers around an infix separator. */
  function ParsePair(s: string, sep: char): Option<(int, int)> {
    match SplitAt(s, sep)
    case None => None
    case Some(halves) =>
      match (ParseInt(halves.0), ParseInt(halves.1))
      case (Some(a), Some(b)) => Some((a, b))
      case _ => None
  }

  /** Reads the number after a fixed prefix. */
  function ParsePrefixed(s: string, prefix: string): Option<int> {
    if prefix <= s then ParseInt(s[|prefix|..]) else None
  }

  function ParseTableId(id: string): Option<(int, int)> {
    ParsePair(id, 'x')
  }

  function ParseSquareId(id: string): Option<int> {
    ParsePrefixed(id, "sq")
  }

  function ParseCubeId(id: string): Option<int> {
    ParsePrefixed(id, "cb")
  }

  function ParsePowerId(id: string): Option<(int, int)> {
    if "pw" <= id then ParsePair(id[2..], '^') else None
  }

  lemma ParsePairJoin(a: int, sep: char, b: int)
    requires !IsDigit(sep) && sep != '-'
    ensures ParsePair(IntToString(a) + [sep] + IntToString(b), sep) == Some((a, b))
  {
    NoSeparatorInNumber(a, sep);
    SplitAtJoin(IntToString(a), sep, IntToString(b));
    ParseIntRoundTrip(a);
    ParseIntRoundTrip(b);
  }

  /** Every id reads back as the operands it was built from. */
  lemma IdRoundTrips(a: int, b: int)
    ensures ParseTableId(TableId(a, b)) == Some((a, b))
    ensures ParseSquareId(SquareId(a)) == Some(a)
    ensures ParseCubeId(CubeId(a)) == Some(a)
    ensures ParsePowerId(PowerId(a, b)) == Some((a, b))
  {
    ParsePairJoin(a, 'x', b);
    ParsePairJoin(a, '^', b);
    assert PowerId(a, b)[2..] == IntToString(a) + "^" + IntToString(b);
    assert SquareId(a)[2..] == IntToString(a);
    assert CubeId(a)[2..] == IntToString(a);
    ParseIntRoundTrip(a);
  }

  /** The category an id belongs to, read from its first character. */
  function IdCategory(id: string): Option<MathCategory> {
    if |id| == 0 then None
    else if IsDigit(id[0]) || id[0] == '-' then Some(Tables)
    else if id[0] == 's' then Some(Squares)
    else if id[0] == 'c' then Some(Cubes)
    else if id[0] == 'p' then Some(Powers)
    else None
  }

  /** Ids of different categories never coincide, so heatmap keys of
      different fact families cannot collide. */
  lemma IdsNameTheirCategory(a: int, b: int)
    ensures IdCategory(TableId(a, b)) == Some(Tables)
    ensures IdCategory(SquareId(a)) == Some(Squares)
    ensures IdCategory(CubeId(a)) == Some(Cubes)
    ensures IdCategory(PowerId(a, b)) == Some(Powers)
  {
  }

  /** Two questions of the same category share an id only when they share
      their operands. */
  lemma IdsInjective(a: int, b: int, c: int, d: int)
    ensures TableId(a, b) == TableId(c, d) ==> a == c && b == d
    ensures SquareId(a) == SquareId(c) ==> a == c
    ensures CubeId(a) == CubeId(c) ==> a == c
    ensures PowerId(a, b) == PowerId(c, d) ==> a == c && b == d
  {
    IdRoundTrips(a, b);
    IdRoundTrips(c, d);
  }

  // ---- Generation ----

  /** The operand range of a category: configured bounds over the defaults
      2..20, 2..30 and 2..15; powers ignore the configuration. */
  function OperandLow(c: MathCategory, config: Config): int {
    ConfiguredOr(config.min, 2)
  }

  function OperandHigh(c: MathCategory, config: Config): int {
    match c
    case Squares => ConfiguredOr(config.max, 30)
    case Cubes => ConfiguredOr(config.max, 15)
    case _ => ConfiguredOr(config.max, 20)
  }

  /** The draws the source's random expressions can produce for a category. */
  predicate ValidDraws(c: MathCategory, config: Config, draws: QuizDraws) {
    && ValidDeltas(draws.deltas)
    && match c
       case Powers => InDrawRange(draws.first, 3) && InDrawRange(draws.second, 5)
       case Tables =>
         InDrawRange(draws.first, OperandHigh(c, config) - OperandLow(c, config) + 1)
         && InDrawRange(draws.second, 10)
       case _ => InDrawRange(draws.first, OperandHigh(c, config) - OperandLow(c, config) + 1)
  }

  /** Options for an answer as the integer option builder guarantees them. */
  predicate WellFormedOptions(options: seq<int>, answer: int, count: int) {
    && |options| == Target(count)
    && Distinct(options)
    && answer in options
    && forall v :: v in options && v != answer ==> PlausibleWrong(v, answer)
  }

  /** The id names a multiplication num × mult with num drawn from the range,
      mult from 1..10, and the answer is the product. */
  predicate IsTablesQuestion(q: Question, lo: int, hi: int) {
    match ParseTableId(q.id)
    case Some((num, mult)) => DrawnBetween(num, lo, hi) && 1 <= mult <= 10 && q.answer == num * mult
    case None => false
  }

  predicate IsSquaresQuestion(q: Question, lo: int, hi: int) {
    match ParseSquareId(q.id)
    case Some(num) => DrawnBetween(num, lo, hi) && q.answer == num * num
    case None => false
  }

  predicate IsCubesQuestion(q: Question, lo: int, hi: int) {
    match ParseCubeId(q.id)
    case Some(num) => DrawnBetween(num, lo, hi) && q.answer == num * num * num
    case None => false
  }

  predicate IsPowersQuestion(q: Question) {
    match ParsePowerId(q.id)
    case Some((base, exp)) => base in {2, 3, 5} && 2 <= exp <= 6 && q.answer == Pow(base, exp)
    case None => false
  }

  /** The answer the draws make: the product, square, cube or power of the
      drawn operands. */
  function DrawnAnswer(c: MathCategory, config: Config, draws: QuizDraws): int
    requires c != Reciprocals && ValidDraws(c, config, draws)
  {
    var num := draws.first + OperandLow(c, config);
    match c
    case Tables => num * (draws.second + 1)
    case Squares => num * num
    case Cubes => num * num * num
    case Powers => Pow([2, 3, 5][draws.first], draws.second + 2)
    case Reciprocals => 0
  }

  /** `generateQuizQuestion(category, optionCount, config)` for the integer
      categories. None means the offsets ran out before the options were
      complete (the source would keep drawing), which happens exactly when
      they cannot supply optionCount - 1 distinct plausible wrong answers. */
  method GenerateQuizQuestion(category: MathCategory, optionCount: int, config: Config, draws: QuizDraws)
    returns (r: Option<Question>)
    requires category != Reciprocals
    requires ValidDraws(category, config, draws)
    ensures r.Some? <==>
              optionCount <= 1
              || |Reachable(DrawnAnswer(category, config, draws), draws.deltas)| >= optionCount - 1
    ensures r.Some? ==> r.value.category == category && r.value.answer == DrawnAnswer(category, config, draws)
    ensures r.Some? ==> WellFormedOptions(r.value.options, r.value.answer, optionCount)
    ensures r.Some? && category == Tables ==>
              IsTablesQuestion(r.value, ConfiguredOr(config.min, 2), ConfiguredOr(config.max, 20))
    ensures r.Some? && category == Squares ==>
              IsSquaresQuestion(r.value, ConfiguredOr(config.min, 2), ConfiguredOr(config.max, 30))
    ensures r.Some? && category == Cubes ==>
              IsCubesQuestion(r.value, ConfiguredOr(config.min, 2), ConfiguredOr(config.max, 15))
    ensures r.Some? && category == Powers ==> IsPowersQuestion(r.value)
    ensures r.Some? && category == Tables ==>
              r.value.id == TableId(draws.first + OperandLow(category, config), draws.second + 1)
    ensures r.Some? && category == Squares ==> r.value.id == SquareId(draws.first + OperandLow(category, config))
    ensures r.Some? && category == Cubes ==> r.value.id == CubeId(draws.first + OperandLow(category, config))
    ensures r.Some? && category == Powers ==> r.value.id == PowerId([2, 3, 5][draws.first], draws.second + 2)
    ensures r.Some? && category == Tables ==>
              r.value.text == IntToString(draws.first + OperandLow(category, config)) + " × "
                              + IntToString(draws.second + 1) + " = ?"
    ensures r.Some? && category == Squares ==>
              r.value.text == IntToString(draws.first + OperandLow(category, config)) + "² = ?"
    ensures r.Some? && category == Cubes ==>
              r.value.text == IntToString(draws.first + OperandLow(category, config)) + "³ = ?"
    ensures r.Some? && category == Powers ==>
              r.value.text == IntToString([2, 3, 5][draws.first]) + "^" + IntToString(draws.second + 2) + " = ?"
    ensures r.None? ==> optionCount >= 2
  {
    var lo := OperandLow(category, config);
    var hi := OperandHigh(category, config);
    var id: string, text: string, answer: int;
    match category {
      case Tables =>
        var num := draws.first + lo;
        var mult := draws.second + 1;
        answer := num * mult;
        assert answer == DrawnAnswer(category, config, draws);
        id := TableId(num, mult);
        text := IntToString(num) + " × " + IntToString(mult) + " = ?";
        IdRoundTrips(num, mult);
        DrawLandsBetween(draws.first, lo, hi);
      case Squares =>
        var num := draws.first + lo;
        answer := num * num;
        assert answer == DrawnAnswer(category, config, draws);
        id := SquareId(num);
        text := IntToString(num) + "² = ?";
        IdRoundTrips(num, 0);
        DrawLandsBetween(draws.first, lo, hi);
      case Cubes =>
        var num := draws.first + lo;
        answer := num * num * num;
        assert answer == DrawnAnswer(category, config, draws);
        id := CubeId(num);
        text := IntToString(num) + "³ = ?";
        IdRoundTrips(num, 0);
        DrawLandsBetween(draws.first, lo, hi);
      case Powers =>
        var bases := [2, 3, 5];
        var base := bases[draws.first];
        var exp := draws.second + 2;
        answer := Pow(base, exp);
        assert answer == DrawnAnswer(category, config, draws);
        id := PowerId(base, exp);
        text := IntToString(base) + "^" + IntToString(exp) + " = ?";
        IdRoundTrips(base, exp);
    }
    var options := GenerateOptions(answer, optionCount, draws.deltas, draws.swaps);
    match options {
      case None => r := None;
      case Some(opts) => r := Some(Question(id, text, answer, opts, category));
    }
  }
}
