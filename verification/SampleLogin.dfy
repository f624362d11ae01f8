/** One login's first tokens and rows, for the runs that show a condition cannot be dropped. */
module SampleLogin {
  import opened Common
  import opened Sessions

  const FAMILY := Family(0)
  const T1 := Token(1)
  const T2 := Token(2)
  const T3 := Token(3)
  const T4 := Token(4)
  const LIVE := SessionRow(0, FAMILY, None, REFRESH_TOKEN_LIFETIME)
  const SPENT := SessionRow(0, FAMILY, Some(0), REFRESH_TOKEN_LIFETIME)
  const AT_ZERO := Clock(0, 0, 0)
}
