/** The calls both programs make into the pyxel game engine, written as data.
    A frame's drawing is the list of commands it issues, in order; the audio
    and process calls are effects returned by an update. */
module Backend {
  import opened Optional

  /** pyxel.cls, pyxel.rect and pyxel.blt. A negative blt width mirrors the
      image horizontally; colkey None means no transparent colour. */
  datatype DrawCmd =
    | Cls(col: int)
    | Rect(x: int, y: int, w: int, h: int, col: int)
    | Blt(x: int, y: int, img: int, u: int, v: int, w: int, h: int, colkey: Option<int>)

  /** pyxel.quit, pyxel.playm(msc, loop), pyxel.stop and pyxel.play(ch, snd). */
  datatype Effect =
    | Quit
    | PlayMusic(msc: int, loop: bool)
    | StopAudio
    | PlaySound(ch: int, snd: int)

  /** A key `pyxel.btnp` reports, counted as a step: 1 when pressed in this
      frame, 0 otherwise. */
  function Press(pressed: bool): int
  {
    if pressed then 1 else 0
  }
}
