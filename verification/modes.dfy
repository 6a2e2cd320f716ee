/** Editor modes. The source compares the current mode against named levels
    (`mode >= Mode.CONNECT`, ...) of an enumeration defined in a file that is
    not part of this model, so the levels are carried as plain integers. */
module Modes {

  datatype ModeLevels = ModeLevels(tryout: int, connect: int, design: int, full: int)
}
