/** Values shared by the models: optional values and decimal numerals. */
module Common {

  datatype Option<+T> = None | Some(value: T)

  predicate IsDigit(c: char) {
    '0' <= c <= '9'
  }

  predicate Numeric(s: string) {
    s != [] && forall c <- s :: IsDigit(c)
  }

  function Decimal(n: nat): (s: string)
    ensures Numeric(s)
  {
    var last := [(n % 10 + '0' as int) as char];
    if n < 10 then last else Decimal(n / 10) + last
  }
}
