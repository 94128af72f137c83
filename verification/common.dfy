/** Shared vocabulary of the model: the optional value that stands for Java's
    nullable references, and Java's 32-bit `int` arithmetic. */
module Common {

  /** A Java reference that may be null. */
  datatype Option<+T> = None | Some(value: T) {
    function GetOr(default: T): T {
      match this
      case Some(v) => v
      case None => default
    }
  }

  /** The colours extracted from a wallpaper (`android.app.WallpaperColors`);
      Java's `equals` on them is modelled as value equality. */
  datatype WallpaperColors = WallpaperColors(primary: int, secondary: Option<int>, tertiary: Option<int>, hints: int)

  function Min(a: int, b: int): int {
    if a <= b then a else b
  }

  const INT_MIN: int := -0x8000_0000
  const INT_MAX: int := 0x7FFF_FFFF

  predicate IsInt32(x: int) {
    INT_MIN <= x <= INT_MAX
  }

  /** Java's two's-complement wrap-around of an `int` result. */
  function Wrap32(x: int): (r: int)
    ensures IsInt32(r)
    ensures (r - x) % 0x1_0000_0000 == 0
    ensures IsInt32(x) ==> r == x
  {
    var m := (x - INT_MIN) % 0x1_0000_0000;
    m + INT_MIN
  }
}
