/** The two MonoGame/XNA value types the core exchanges with the framework. */
module Xna {

  /** Microsoft.Xna.Framework.Vector2. */
  datatype Vector2 = Vector2(x: real, y: real)

  /** Microsoft.Xna.Framework.Rectangle. */
  datatype Rectangle = Rectangle(x: int, y: int, width: int, height: int)
}
