/** The mental-math question generator: one of `+ - * %` with operands from
    fixed ranges and the exact answer. */
module MentalMath {
  import opened Decimal
  import opened Draws

  /** `/` is part of the operation type but never generated. */
  datatype Operation = Add | Sub | Mul | Div | Percent

  datatype MentalQuestion = MentalQuestion(id: string, text: string, answer: real)

  /** A question together with the operation and the two numbers it shows. */
  datatype Generated = Generated(op: Operation, a: int, b: int, question: MentalQuestion)

  /** The random draws one question consumes: which operation, then one draw
      per operand. */
  datatype MentalDraws = MentalDraws(op: int, first: int, second: int)

  const Operations: seq<Operation> := [Add, Sub, Mul, Percent]

  const Percentages: seq<int> := [10, 20, 25, 50, 75]

  /** The draws the source's expressions can produce; the subtrahend's range
      depends on the minuend already drawn. */
  predicate ValidDraws(d: MentalDraws) {
    && InDrawRange(d.op, |Operations|)
    && var op := Operations[d.op];
       if op == Add then InDrawRange(d.first, 90) && InDrawRange(d.second, 90)
       else if op == Sub then InDrawRange(d.first, 90) && InDrawRange(d.second, d.first + 10)
       else if op == Mul then InDrawRange(d.first, 20) && InDrawRange(d.second, 9)
       else InDrawRange(d.first, |Percentages|) && InDrawRange(d.second, 20)
  }

  /** 2·x is a whole number: x is a whole number or a half. */
  predicate HalfIntegral(x: real) {
    (2.0 * x).Floor as real == 2.0 * x
  }

  lemma HalfOfWhole(x: real, n: int)
    requires 2.0 * x == n as real
    ensures HalfIntegral(x)
  {
  }

  /** p% of 10·k is (p/5)·k halves. */
  lemma PercentHalves(p: int, k: int)
    requires p in {10, 20, 25, 50, 75} && 0 <= k < 20
    ensures 2.0 * ((p as real / 100.0) * (k * 10) as real) == ((p / 5) * k) as real
  {
    var base := (k * 10) as real;
    if p == 10 {
      assert p as real / 100.0 == 0.1;
    } else if p == 20 {
      assert p as real / 100.0 == 0.2;
    } else if p == 25 {
      assert p as real / 100.0 == 0.25;
    } else if p == 50 {
      assert p as real / 100.0 == 0.5;
    } else {
      assert p as real / 100.0 == 0.75;
    }
  }

  lemma PercentExact(p: int, k: int)
    ensures (p as real / 100.0) * (k * 10) as real == (p * (k * 10)) as real / 100.0
  {
    var m := k * 10;
    assert (p * m) as real == p as real * m as real;
  }

  lemma PercentFacts(p: int, k: int)
    requires p in {10, 20, 25, 50, 75} && 0 <= k < 20
    ensures var answer := (p as real / 100.0) * (k * 10) as real;
      && answer == (p * (k * 10)) as real / 100.0
      && 0.0 <= answer <= 142.5
      && HalfIntegral(answer)
  {
    var answer := (p as real / 100.0) * (k * 10) as real;
    var halves := (p / 5) * k;
    assert 0 <= halves <= 15 * 19 by {
      assert 0 <= p / 5 <= 15;
      assert halves <= 15 * k;
    }
    PercentHalves(p, k);
    PercentExact(p, k);
    HalfOfWhole(answer, halves);
  }

  /** `p% of base` for a listed percentage and base = 10·k below 200. */
  function PercentOf(p: int, k: int): (answer: real)
    requires p in {10, 20, 25, 50, 75} && 0 <= k < 20
    ensures answer == (p * (k * 10)) as real / 100.0
    ensures 0.0 <= answer <= 142.5
    ensures HalfIntegral(answer)
  {
    PercentFacts(p, k);
    (p as real / 100.0) * (k * 10) as real
  }

  predicate AddShape(r: Generated) {
    10 <= r.a <= 99 && 10 <= r.b <= 99 && r.question.answer == (r.a + r.b) as real
  }

  predicate SubShape(r: Generated) {
    10 <= r.a <= 99 && 0 <= r.b < r.a && r.question.answer == (r.a - r.b) as real
    && r.question.answer >= 1.0
  }

  predicate MulShape(r: Generated) {
    2 <= r.a <= 21 && 2 <= r.b <= 10 && r.question.answer == (r.a * r.b) as real
  }

  predicate PercentShape(r: Generated) {
    r.a in {10, 20, 25, 50, 75} && 0 <= r.b <= 190 && r.b % 10 == 0
    && r.question.answer == (r.a * r.b) as real / 100.0
    && (r.b == 0 ==> r.question.answer == 0.0)
  }

  /** The question shows its two numbers joined by the operator's symbol. */
  predicate Displays(r: Generated, symbol: string) {
    r.question.text == IntToString(r.a) + symbol + IntToString(r.b)
  }

  /** The answer in the range every operation keeps to, a whole number or a half. */
  predicate SmallAnswer(r: Generated) {
    0.0 <= r.question.answer <= 210.0 && HalfIntegral(r.question.answer)
  }

  lemma WholeIsHalfIntegral(n: int)
    ensures HalfIntegral(n as real)
  {
    assert 2.0 * (n as real) == (2 * n) as real;
  }

  function AddQuestion(id: string, a: int, b: int): (r: Generated)
    requires 10 <= a <= 99 && 10 <= b <= 99
    ensures r.op == Add && r.a == a && r.b == b && r.question.id == id
    ensures Displays(r, " + ")
    ensures AddShape(r) && SmallAnswer(r)
  {
    WholeIsHalfIntegral(a + b);
    Generated(Add, a, b, MentalQuestion(id, IntToString(a) + " + " + IntToString(b), (a + b) as real))
  }

  function SubQuestion(id: string, a: int, b: int): (r: Generated)
    requires 10 <= a <= 99 && 0 <= b < a
    ensures r.op == Sub && r.a == a && r.b == b && r.question.id == id
    ensures Displays(r, " - ")
    ensures SubShape(r) && SmallAnswer(r)
  {
    WholeIsHalfIntegral(a - b);
    Generated(Sub, a, b, MentalQuestion(id, IntToString(a) + " - " + IntToString(b), (a - b) as real))
  }

  function MulQuestion(id: string, a: int, b: int): (r: Generated)
    requires 2 <= a <= 21 && 2 <= b <= 10
    ensures r.op == Mul && r.a == a && r.b == b && r.question.id == id
    ensures Displays(r, " × ")
    ensures MulShape(r) && SmallAnswer(r)
  {
    var product := a * b;
    assert product <= 210 by {
      assert a * b <= 21 * b <= 21 * 10;
    }
    WholeIsHalfIntegral(product);
    Generated(Mul, a, b, MentalQuestion(id, IntToString(a) + " × " + IntToString(b), product as real))
  }

  function PercentQuestion(id: string, p: int, k: int): (r: Generated)
    requires p in {10, 20, 25, 50, 75} && 0 <= k < 20
    ensures r.op == Percent && r.a == p && r.b == k * 10 && r.question.id == id
    ensures Displays(r, "% of ")
    ensures PercentShape(r) && SmallAnswer(r)
  {
    var base := k * 10;
    Generated(Percent, p, base, MentalQuestion(id, IntToString(p) + "% of " + IntToString(base), PercentOf(p, k)))
  }

  /** `generateQuestion()`; `now` is the clock reading the id is built from. */
  function GenerateQuestion(d: MentalDraws, now: int): (r: Generated)
    requires ValidDraws(d)
    ensures r.op in {Add, Sub, Mul, Percent}
    ensures r.op == Operations[d.op]
    ensures r.op == Add ==> r.a == d.first + 10 && r.b == d.second + 10
    ensures r.op == Sub ==> r.a == d.first + 10 && r.b == d.second
    ensures r.op == Mul ==> r.a == d.first + 2 && r.b == d.second + 2
    ensures r.op == Percent ==> r.a == Percentages[d.first] && r.b == d.second * 10
    ensures r.op == Add ==> Displays(r, " + ")
    ensures r.op == Sub ==> Displays(r, " - ")
    ensures r.op == Mul ==> Displays(r, " × ")
    ensures r.op == Percent ==> Displays(r, "% of ")
    ensures r.question.id == "mm-" + IntToString(now)
    ensures r.op == Add ==> AddShape(r)
    ensures r.op == Sub ==> SubShape(r)
    ensures r.op == Mul ==> MulShape(r)
    ensures r.op == Percent ==> PercentShape(r)
    ensures SmallAnswer(r)
  {
    var id := "mm-" + IntToString(now);
    var op := Operations[d.op];
    if op == Add then AddQuestion(id, d.first + 10, d.second + 10)
    else if op == Sub then SubQuestion(id, d.first + 10, d.second)
    else if op == Mul then MulQuestion(id, d.first + 2, d.second + 2)
    else PercentQuestion(id, Percentages[d.first], d.second)
  }

  /** The `*` case reaches a multiplier of 10: the largest draw of
      `floor(random * 9)` is 8, and 8 + 2 = 10. */
  lemma MulReachesTen(now: int)
    ensures var r := GenerateQuestion(MentalDraws(2, 19, 8), now);
      r.op == Mul && r.a == 21 && r.b == 10 && r.question.answer == 210.0
  {
  }

  /** Every operation the generator offers is reachable, and `/` never is. */
  lemma EveryOperationReachable(op: Operation, now: int)
    ensures op != Div <==> exists i :: 0 <= i < |Operations| && GenerateQuestion(MentalDraws(i, 0, 0), now).op == op
  {
    if op != Div {
      var i := if op == Add then 0 else if op == Sub then 1 else if op == Mul then 2 else 3;
      assert GenerateQuestion(MentalDraws(i, 0, 0), now).op == op;
    }
  }
}
