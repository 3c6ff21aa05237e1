/**
 * Mapping between Windows file attributes, the nine Unix permission bits and
 * the octal mode number that holds them.
 */
module PermissionAgent {
  import opened Wrappers

  /** A mode number as the source passes it (`u32`). */
  type Mode = bv32

  // The nine permission bits, written in hexadecimal (their octal values in the comments).
  const OwnerReadBit: Mode := 0x100      // 0o400
  const OwnerWriteBit: Mode := 0x80      // 0o200
  const OwnerExecuteBit: Mode := 0x40    // 0o100
  const GroupReadBit: Mode := 0x20       // 0o040
  const GroupWriteBit: Mode := 0x10      // 0o020
  const GroupExecuteBit: Mode := 0x8     // 0o010
  const OtherReadBit: Mode := 0x4        // 0o004
  const OtherWriteBit: Mode := 0x2       // 0o002
  const OtherExecuteBit: Mode := 0x1     // 0o001
  const AllPermissionBits: Mode := 0x1FF // 0o777
  const AllWriteBits: Mode := 0x92       // 0o222

  datatype WindowsFileAttributes = WindowsFileAttributes(readOnly: bool, hidden: bool, system: bool, archive: bool)

  datatype LinuxPermissions = LinuxPermissions(
    ownerRead: bool, ownerWrite: bool, ownerExecute: bool,
    groupRead: bool, groupWrite: bool, groupExecute: bool,
    otherRead: bool, otherWrite: bool, otherExecute: bool)

  /**
   * `windows_to_linux`: the owner may always read; write and execute go with
   * "not read-only", group access also needs "not hidden", others may read
   * and execute unless the file is hidden or a system file, and never write.
   * The archive flag plays no part.
   */
  function WindowsToLinux(attrs: WindowsFileAttributes): (p: LinuxPermissions)
    ensures p.ownerRead && !p.otherWrite
    ensures attrs.readOnly ==> !p.ownerWrite && !p.groupWrite && !p.otherWrite
  {
    LinuxPermissions(
      ownerRead := true,
      ownerWrite := !attrs.readOnly,
      ownerExecute := !attrs.readOnly,
      groupRead := !attrs.hidden,
      groupWrite := !attrs.readOnly && !attrs.hidden,
      groupExecute := !attrs.readOnly && !attrs.hidden,
      otherRead := !attrs.hidden && !attrs.system,
      otherWrite := false,
      otherExecute := !attrs.hidden && !attrs.system)
  }

  /**
   * `linux_to_windows`: read-only when the owner cannot write, hidden when
   * others cannot read, system when others cannot execute, always archive.
   */
  function LinuxToWindows(perms: LinuxPermissions): (a: WindowsFileAttributes)
    ensures a.archive
  {
    WindowsFileAttributes(
      readOnly := !perms.ownerWrite,
      hidden := !perms.otherRead,
      system := !perms.otherExecute,
      archive := true)
  }

  /** The bit a granted permission contributes to the mode. */
  function Bit(granted: bool, bit: Mode): Mode
  {
    if granted then bit else 0
  }

  /** `linux_to_octal`: each permission that is granted ORs its bit into the mode. */
  function LinuxToOctal(perms: LinuxPermissions): (octal: Mode)
    ensures octal <= AllPermissionBits
    ensures octal & AllPermissionBits == octal
  {
    Bit(perms.ownerRead, OwnerReadBit) | Bit(perms.ownerWrite, OwnerWriteBit) | Bit(perms.ownerExecute, OwnerExecuteBit)
    | Bit(perms.groupRead, GroupReadBit) | Bit(perms.groupWrite, GroupWriteBit) | Bit(perms.groupExecute, GroupExecuteBit)
    | Bit(perms.otherRead, OtherReadBit) | Bit(perms.otherWrite, OtherWriteBit) | Bit(perms.otherExecute, OtherExecuteBit)
  }

  /** `octal_to_linux`: each permission is granted when its bit is set; higher bits are ignored. */
  function OctalToLinux(octal: Mode): (p: LinuxPermissions)
    ensures LinuxToOctal(p) == octal & AllPermissionBits
  {
    LinuxPermissions(
      ownerRead := octal & OwnerReadBit != 0,
      ownerWrite := octal & OwnerWriteBit != 0,
      ownerExecute := octal & OwnerExecuteBit != 0,
      groupRead := octal & GroupReadBit != 0,
      groupWrite := octal & GroupWriteBit != 0,
      groupExecute := octal & GroupExecuteBit != 0,
      otherRead := octal & OtherReadBit != 0,
      otherWrite := octal & OtherWriteBit != 0,
      otherExecute := octal & OtherExecuteBit != 0)
  }

  /** The archive flag never influences the Unix permissions. */
  lemma ArchiveIgnored(attrs: WindowsFileAttributes)
    ensures WindowsToLinux(attrs) == WindowsToLinux(attrs.(archive := !attrs.archive))
  {
  }

  /** Bits above the low nine do not influence the permissions. */
  lemma HighBitsIgnored(octal: Mode)
    ensures OctalToLinux(octal) == OctalToLinux(octal & AllPermissionBits)
  {
  }

  /** Each permission controls exactly its own bit of the mode. */
  lemma BitPerPermission(perms: LinuxPermissions)
    ensures var o := LinuxToOctal(perms);
      && (o & OwnerReadBit != 0 <==> perms.ownerRead)
      && (o & OwnerWriteBit != 0 <==> perms.ownerWrite)
      && (o & OwnerExecuteBit != 0 <==> perms.ownerExecute)
      && (o & GroupReadBit != 0 <==> perms.groupRead)
      && (o & GroupWriteBit != 0 <==> perms.groupWrite)
      && (o & GroupExecuteBit != 0 <==> perms.groupExecute)
      && (o & OtherReadBit != 0 <==> perms.otherRead)
      && (o & OtherWriteBit != 0 <==> perms.otherWrite)
      && (o & OtherExecuteBit != 0 <==> perms.otherExecute)
  {
  }

  /** Permissions survive a trip through the mode number. */
  lemma PermissionsRoundTrip(perms: LinuxPermissions)
    ensures OctalToLinux(LinuxToOctal(perms)) == perms
  {
    BitPerPermission(perms);
  }

  /** A read-only Windows file gets a mode without write bits. */
  lemma ReadOnlyHasNoWriteBits(attrs: WindowsFileAttributes)
    requires attrs.readOnly
    ensures LinuxToOctal(WindowsToLinux(attrs)) & AllWriteBits == 0
  {
    BitPerPermission(WindowsToLinux(attrs));
  }

  /**
   * Windows to Unix and back keeps read-only, merges hidden and system into
   * both flags, and sets archive.
   */
  lemma WindowsRoundTrip(attrs: WindowsFileAttributes)
    ensures LinuxToWindows(WindowsToLinux(attrs))
      == WindowsFileAttributes(attrs.readOnly, attrs.hidden || attrs.system, attrs.hidden || attrs.system, true)
  {
  }

  /** The `map_windows_to_linux_attrs` command: the mode for the given Windows attributes. */
  function MapWindowsToLinuxAttrs(readOnly: bool, hidden: bool, system: bool, archive: bool): (r: Result<Mode, string>)
    ensures r.Ok?
    ensures r.value == LinuxToOctal(WindowsToLinux(WindowsFileAttributes(readOnly, hidden, system, archive)))
    ensures r.value <= AllPermissionBits && r.value & OwnerReadBit != 0 && r.value & OtherWriteBit == 0
    ensures readOnly ==> r.value & AllWriteBits == 0
  {
    var attrs := WindowsFileAttributes(readOnly, hidden, system, archive);
    BitPerPermission(WindowsToLinux(attrs));
    Ok(LinuxToOctal(WindowsToLinux(attrs)))
  }

  /** The `map_linux_to_windows_attrs` command: the Windows attributes for a mode. */
  function MapLinuxToWindowsAttrs(octalPermissions: Mode): (r: Result<WindowsFileAttributes, string>)
    ensures r.Ok?
    ensures r.value == LinuxToWindows(OctalToLinux(octalPermissions))
    ensures r.value.archive
    ensures r.value.readOnly <==> octalPermissions & OwnerWriteBit == 0
    ensures r.value.hidden <==> octalPermissions & OtherReadBit == 0
    ensures r.value.system <==> octalPermissions & OtherExecuteBit == 0
  {
    Ok(LinuxToWindows(OctalToLinux(octalPermissions)))
  }
}
