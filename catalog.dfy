/** The images the viewer steps through (main.go `picture`). */
module Catalog {

  /**
   * One image file: its base name, absolute path, size in bytes, pixel dimensions (zero
   * when the image could not be measured) and decoder name. Built once and never changed.
   */
  datatype Picture = Picture(name: string, path: string, size: int, width: int, height: int, format: string)
}
