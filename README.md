# Rust kernel samples, modelled in Dafny

This project models the sequential logic of four small Linux-kernel Rust
samples and proves what they promise:

- **rust_configfs** (`configfs.dfy`, module `RustConfigfs`): a configfs
  subsystem whose root item's data, `Configuration`, holds a fixed `message`
  text and a `bar` attribute backed by a page-sized buffer plus a length.
  `Configuration` is a class over an `array<u8>` of `PAGE_SIZE` bytes;
  `show` and `store` are methods that copy into and out of a caller's page
  array. The item-type declarations are values: a `NodeKind` per data type
  (`Root` for `Configuration`, `Child`, `GrandChild`), the declared child
  type of each (`ChildKind`), the attribute table of each (`Attributes`),
  and `make_group` (`MakeGroup`, iterated by `MakePath`).
- **rust_kunit** (`kunit.dfy`, module `RustKunit`, on top of `decimal.dfy`,
  module `Decimal`): `bad_add(a, b)` writes both i32 values in decimal one
  after the other, parses the text back as an i32 and reports every parse
  failure as `ERANGE`. `Decimal` models integer formatting and
  `str::parse::<i32>`.
- **rust_misc_device** (`misc_device.dfy`, module `RustMiscDevice`): each
  open file has one i32 cell starting at 0; `ioctl` handles `SET_VALUE`,
  `GET_VALUE` and `HELLO` and rejects everything else with `ENOTTY`. The
  cell is a class `Device` with methods for `open`, `set_value`,
  `get_value`, `hello` and `ioctl`, specified by the pure `Step` function.
- **rust_data_structure** (`data_structure.dfy`, module
  `RustDataStructure`): module init pushes 960 and 110 onto a vector, inserts
  `960 -> "Hello"` and `110 -> "Haven"` into an ordered map, and reports a
  `wrapping_add` fold of the vector and a `checked_add` fold of the map keys.

`kernel.dfy` (module `Kernel`) holds what the samples share: `u8`, `i32`,
`u32`, the error codes, `Option`, `Result`, and the `wrapping_add` /
`checked_add` arithmetic.

The sample's `store` of `bar` has no capacity check: an input longer than
`PAGE_SIZE` makes the slice index panic, so the model requires
`|p| <= PAGE_SIZE`. The sample's own code raises none of the configfs
framework's errors.

## Model

| member | source | states |
|---|---|---|
| `RustConfigfs.ChildKind` | samples/rust_configfs/rust_configfs.rs:146-161 | a Configuration item makes Child groups, a Child makes GrandChild groups, a GrandChild declares no child type; no kind is its own child and nothing makes a root |
| `RustConfigfs.Attributes` | samples/rust_configfs/rust_configfs.rs:181-189 | each item type's declared attribute list has index i at position i and unique names, and only the root's attribute 1 (`bar`) has a store handler; every other attribute is read-only |
| `RustConfigfs.MakeGroup` | samples/rust_configfs/rust_configfs.rs:146-164 | `make_group(name)` succeeds exactly under Configuration and Child items, names the group `name`, and gives it the parent's declared child kind; under a GrandChild it fails |
| `RustConfigfs.MakePathShape` | samples/rust_configfs/rust_configfs.rs:75-85 | nested directories below an item can be made exactly as deep as its height (2, 1, 0), each group carries its name and the kind its parent declares |
| `RustConfigfs.RootShape` | samples/rust_configfs/rust_configfs.rs:177-189 | from the subsystem root at most two levels can be made, and a two-level path is a Child followed by a GrandChild |
| `RustConfigfs.CopyFromSlice` | samples/rust_configfs/rust_configfs.rs:130-132 | `copy_from_slice` into `dst[0..n]` makes the first n elements the source and leaves the rest untouched |
| `RustConfigfs.Configuration.constructor` | samples/rust_configfs/rust_configfs.rs:102-108 | a fresh Configuration holds the message text, a zeroed page-sized buffer and `bar` length 0 (empty value) |
| `RustConfigfs.Configuration.ShowMessage` | samples/rust_configfs/rust_configfs.rs:111-120 | `show` of `message` writes "Hello World\n" to the front of the page, returns its 12-byte length and leaves the rest of the page as it was |
| `RustConfigfs.Configuration.ShowBar` | samples/rust_configfs/rust_configfs.rs:127-134 | `show` of `bar` writes exactly the stored value to the front of the page, returns its length, and touches no byte past it |
| `RustConfigfs.Configuration.StoreBar` | samples/rust_configfs/rust_configfs.rs:136-143 | `store` of `bar` makes the value exactly the input (the length recorded is the input's) and leaves the buffer bytes past the new length unchanged; the input must fit in a page |
| `RustConfigfs.ShowBaz` | samples/rust_configfs/rust_configfs.rs:58-67 | a Child's `baz` writes "Hello Baz\n" and returns 10 without reading item state; the rest of the page is untouched |
| `RustConfigfs.ShowGc` | samples/rust_configfs/rust_configfs.rs:36-45 | a GrandChild's `gc` writes "Hello GC\n" and returns 9 without reading item state; the rest of the page is untouched |
| `RustConfigfs.FixedTextLengths` | samples/rust_configfs/rust_configfs.rs:40-67 | the fixed texts are 12, 10 and 9 bytes long |
| `RustConfigfs.StoreStoreShow` | samples/rust_configfs/rust_configfs.rs:127-143 | after storing any value and then a second one, `show` of `bar` returns exactly the second, even when the first was longer |
| `RustConfigfs.ShowFreshBar` | samples/rust_configfs/rust_configfs.rs:104-107 | `show` of `bar` on a fresh root returns 0 and leaves the page exactly as it was |
| `RustConfigfs.ShowMessageAfterStore` | samples/rust_configfs/rust_configfs.rs:115-120 | `message` shows the same 12 bytes whatever has been stored into `bar` |
| `RustKunit.BadAdd` | samples/rust_kunit/common.rs:12-19 | every failure of `bad_add` is reported as ERANGE |
| `RustKunit.BadAddNegativeRight` | samples/rust_kunit/common.rs:13-15 | for every `a` and every negative `b` the text has a '-' after its first character, so `bad_add` is `Err(ERANGE)` |
| `RustKunit.BadAddNonNegativeRight` | samples/rust_kunit/common.rs:10-18 | for `b >= 0` `bad_add` is `Ok(v)` exactly when `v = a*10^digits(b) + b` (a >= 0) or `a*10^digits(b) - b` (a < 0) fits in i32, and `Err(ERANGE)` otherwise |
| `RustKunit.ConcatNegativeLeft` | samples/rust_kunit/common.rs:13-15 | for negative `a` and `b >= 0`, `"{a}{b}"` parses to `a*10^digits(b) - b` when that fits in i32 and fails otherwise |
| `RustKunit.ConcatNonNegativeLeft` | samples/rust_kunit/common.rs:13-15 | for `a >= 0` and `b >= 0`, `"{a}{b}"` parses to `a*10^digits(b) + b` when that fits in i32 and fails otherwise |
| `RustKunit.BadAddConcatenatesPositives` | samples/rust_kunit/tests.rs:25-37 | `bad_add(960, 110) == Ok(960110)` |
| `RustKunit.BadAddRejectsNegativeRight` | samples/rust_kunit/tests.rs:39-51 | `bad_add(960, -110)` is an error |
| `RustKunit.BadAddNegativeLeft` | samples/rust_kunit/tests.rs:53-65 | `bad_add(-960, 110) == Ok(-960110)` |
| `RustKunit.BadAddOverflow` | samples/rust_kunit/common.rs:16-18 | a well-formed concatenation outside the i32 range (`2147483647` then `0`) is `Err(ERANGE)` |
| `Decimal.Format` | samples/rust_kunit/common.rs:13-13 | `{}` of an integer starts with '-' exactly when it is negative, and the rest is NumDigits(|x|) digits denoting |x|; partners `ParseFormat`, `ParseUnsigned`, `ParseNegative` |
| `Decimal.ParseI32` | samples/rust_kunit/common.rs:15-15 | `parse::<i32>` accepts only non-empty text whose part after an optional sign is all digits; `ParseUnsigned` and `ParseNegative` give its value and its overflow failure, `ParseFormat` its round trip with `Format` |
| `Decimal.ParseFormat` | samples/rust_kunit/common.rs:13-15 | parsing the decimal text of any i32 gives the i32 back |
| `Decimal.DigitsCorrect` | samples/rust_kunit/common.rs:13-13 | the decimal text of n is NumDigits(n) digits that denote n |
| `Decimal.NumDigitsBounds` | samples/rust_kunit/common.rs:13-13 | NumDigits(n) is the length of the shortest numeral: `10^(d-1) <= n < 10^d` (with d = 1 for n < 10) |
| `Decimal.ValueAppend` | samples/rust_kunit/common.rs:13-15 | the value of concatenated digit strings is the left value shifted by the right length plus the right value |
| `Decimal.ParseUnsigned` | samples/rust_kunit/common.rs:15-15 | an unsigned numeral parses to its value when it fits in i32 and fails otherwise |
| `Decimal.ParseNegative` | samples/rust_kunit/common.rs:15-15 | a minus sign before a numeral parses to the negated value when it fits in i32 and fails otherwise |
| `RustMiscDevice.ReadI32` | samples/rust_misc_device/module/rust_misc_device.rs:57-57 | reading the user i32 succeeds with the user's value exactly when the memory is readable, otherwise EFAULT |
| `RustMiscDevice.Step` | samples/rust_misc_device/module/rust_misc_device.rs:117-127 | a successful ioctl returns 0; only a SET_VALUE whose argument reads changes the cell, to the value read; only GET_VALUE copies out, and it copies the cell; a failed call changes nothing; ENOTTY exactly for unknown commands; partners `SetThenGet`, `FaultsKeepValue`, `OtherCommands`, `RunKeepsLastSet` |
| `RustMiscDevice.Device.Open` | samples/rust_misc_device/module/rust_misc_device.rs:96-110 | opening the device creates a cell holding 0 |
| `RustMiscDevice.Device.SetValue` | samples/rust_misc_device/module/rust_misc_device.rs:56-67 | a readable user i32 becomes the cell value and the call returns Ok(0); a faulting read returns EFAULT before the cell is touched |
| `RustMiscDevice.Device.GetValue` | samples/rust_misc_device/module/rust_misc_device.rs:69-84 | the current value is copied out and Ok(0) returned, or EFAULT if the user buffer is not writable; the cell never changes |
| `RustMiscDevice.Device.Hello` | samples/rust_misc_device/module/rust_misc_device.rs:86-89 | `hello` returns Ok(0) and changes nothing |
| `RustMiscDevice.Device.Ioctl` | samples/rust_misc_device/module/rust_misc_device.rs:112-128 | the return value, the new cell value and the copied-out value are those of `Step` on the old value: dispatch to get/set/hello, errors propagated, success mapped to Ok(0), other commands ENOTTY |
| `RustMiscDevice.CommandsDistinct` | samples/rust_misc_device/module/rust_misc_device.rs:33-35 | the HELLO, GET_VALUE and SET_VALUE command numbers are pairwise distinct |
| `RustMiscDevice.SetThenGet` | samples/rust_misc_device/src/main.rs:46-66 | a successful SET_VALUE of x followed by GET_VALUE returns Ok(0) and copies out x |
| `RustMiscDevice.FaultsKeepValue` | samples/rust_misc_device/module/rust_misc_device.rs:56-84 | a faulting SET_VALUE read or GET_VALUE write returns EFAULT and leaves the cell unchanged |
| `RustMiscDevice.OtherCommands` | samples/rust_misc_device/module/rust_misc_device.rs:117-124 | HELLO returns Ok(0) and changes nothing; any other unknown command returns ENOTTY and changes nothing |
| `RustMiscDevice.RunKeepsLastSet` | samples/rust_misc_device/module/rust_misc_device.rs:112-128 | after any sequence of ioctls the cell holds the value of the last successful SET_VALUE, or its earlier value if there was none |
| `RustMiscDevice.UserspaceSession` | samples/rust_misc_device/src/main.rs:17-86 | the userspace test's session reads 0 initially, reads back 1 after setting 1, and its unknown command fails with ENOTTY |
| `Kernel.WrappingAdd` | samples/rust_data_structure/rust_data_structure.rs:32-34 | `wrapping_add` is congruent to the exact sum modulo 2^32 and equals it when it fits in i32 |
| `Kernel.CheckedAdd` | samples/rust_data_structure/rust_data_structure.rs:46-48 | `checked_add` is `Some(x + y)` exactly when the sum fits in i32, `None` otherwise |
| `RustDataStructure.WrappingFoldIsWrappedSum` | samples/rust_data_structure/rust_data_structure.rs:28-35 | the `wrapping_add` fold from any start is the exact sum wrapped once into the i32 range |
| `RustDataStructure.WrappingFold` | samples/rust_data_structure/rust_data_structure.rs:30-34 | the `wrapping_add` fold is congruent to the exact sum modulo 2^32 and equals it whenever the exact sum fits in i32; `WrappingFoldIsWrappedSum` pins it to the exact sum wrapped once |
| `RustDataStructure.CheckedFold` | samples/rust_data_structure/rust_data_structure.rs:44-49 | once the accumulator is `None` the fold stays `None`, and any `Some` it returns is the start plus the exact sum of the keys; `CheckedFoldIsCheckedSum` says exactly when it is `Some` |
| `RustDataStructure.CheckedFoldIsCheckedSum` | samples/rust_data_structure/rust_data_structure.rs:42-50 | the `checked_add` fold is `Some(total)` exactly when every running total fits in i32, and `None` as soon as one overflows |
| `RustDataStructure.Keys` | samples/rust_data_structure/rust_data_structure.rs:44-44 | iteration yields one key per entry, in entry order |
| `RustDataStructure.Insert` | samples/rust_data_structure/rust_data_structure.rs:37-41 | inserting keeps the entries in strictly increasing key order, maps the key to the new value (replacing an old one), and keeps every other entry |
| `RustDataStructure.Init` | samples/rust_data_structure/rust_data_structure.rs:22-53 | init keeps `numbers == [960, 110]` and exactly the map `{960 -> "Hello", 110 -> "Haven"}` iterated as [110, 960], and reports the sums 1070 and Some(1070) |

## Left out

- The configfs framework itself (directory creation and its name clashes, removal, stale handles, the dispatch from attribute index to handler): it lives in the kernel crate, which is not part of this model; only the sample's handlers and declared type bindings are modelled.
- Mutex locking in the configfs and misc-device samples: each `show`, `store` and `ioctl` is one atomic sequential step.
- Allocation failure (`KBox::new`, `CString::try_from`, `CString::try_from_fmt`, `KVec::push`, `try_create_and_insert`, the boxed device in `open`): the model assumes every allocation succeeds.
- RustConfigfs.Configuration.ShowMessage: the handlers return `Result<usize>` but never fail, so the model returns the count directly.
- RustConfigfs.MakeGroup: the group's data payload construction (`Child::new`, `GrandChild::new`) carries no state and is not modelled; a failing `make_group` under a GrandChild is the framework's refusal, shown as `None` without an error code.
- `PAGE_SIZE` is fixed at 4096; the sample takes it from the architecture.
- The ioctl command numbers use the asm-generic `_IOC` layout; other architectures encode them differently, which only changes the three constants.
- User-memory copies (`UserSlice`) are modelled by whether the i32 can be read or written; the fault code is EFAULT.
- `str::parse::<i32>` checks for overflow while accumulating digits; the model checks the final value, which is equivalent because a prefix of a numeral never denotes more than the whole.
- All logging (`pr_info!`, `dev_info!`, `dev_err!`) and the module macros; the values the data-structure sample logs are returned as outputs instead.
- The platform driver sample, the module-interdependency samples and the reference-aliasing sample: lifecycle plumbing, a foreign call that only prints, and deliberately undefined behaviour.
