/** The configuration data structures (core/config.h). */
module Config {

  datatype Option<+T> = None | Some(value: T)

  datatype BootAction = KernelBoot | InsfileBoot | BootmapBoot | Reboot | Halt | Shell | Exit

  /** `tag` is the label of the entry. */
  datatype Bentry = Bentry(
    title: string, tag: string, root: string, kernel: string, initrd: string, cmdline: string,
    parmfile: string, insfile: string, bootmap: string, locked: int, pause: string, action: BootAction)

  datatype UserInterface = UserInterface(program: string, cmdline: string)

  datatype Toplevel = Toplevel(
    bootDefault: int, timeout: int, password: string, uis: seq<UserInterface>, bentries: seq<Bentry>)

  /** `cfg_bentry_init`: memset to zero, all strings empty. */
  const NEW_BENTRY: Bentry := Bentry("", "", "", "", "", "", "", "", "", 0, "", KernelBoot)

  /** `cfg_init`. */
  const NEW_TOPLEVEL: Toplevel := Toplevel(0, 0, "", [], [])
}
