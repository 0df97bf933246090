/** The two pure helpers the component's view uses. */
module Display {
  import opened PetData

  const Green := "bg-green-500"
  const Yellow := "bg-yellow-500"
  const Red := "bg-red-500"

  /** The colour band of a meter bar: high from 60, middle from 30, low below. */
  function ProgressColor(value: real): (c: string)
    ensures c == Green <==> value >= 60.0
    ensures c == Yellow <==> 30.0 <= value < 60.0
    ensures c == Red <==> value < 30.0
  {
    if value >= 60.0 then Green
    else if value >= 30.0 then Yellow
    else Red
  }

  const GameOverText := "¡Game Over! 😢"
  const AlertText := "¡Alerta! Necesitas cuidar de tu Tamagotchi urgentemente!"
  const OkText := "¡Todo está bien! 😊"

  /** The status line: game over wins over the critical alert. */
  function StatusMessage(s: PetState): (msg: string)
    ensures s.gameOver ==> msg == GameOverText
    ensures msg == AlertText <==> !s.gameOver && s.isCritical
    ensures msg == OkText <==> !s.gameOver && !s.isCritical
  {
    if s.gameOver then GameOverText
    else if s.isCritical then AlertText
    else OkText
  }

  /**
   * `isCritical` is only ever set together with `gameOver`, so in any state
   * that keeps the invariant the alert text is never shown.
   */
  lemma AlertNeverShown(s: PetState)
    requires Inv(s)
    ensures StatusMessage(s) != AlertText
  {
  }
}
