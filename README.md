# simplechar: a verified model of a minimal Linux character device

The `simplechar` kernel module exposes one global message device. A caller
opens the device node, writes a short message (at most 255 bytes) into a
256-byte buffer, reads it back through the file position, and releases the
device. Loading the module registers a major number, a device class and a
device node, in that order. A failed step unwinds the ones before it in
reverse order, and unloading releases all three in reverse order.

The model has three Dafny modules:

- `CString` (`cstring.dfy`): the C string length that `strlen` computes. It has a
  specification function `Length` and the scan loop `ScanLength`, proved equal to it.
- `MessageDevice` (`message_device.dfy`): the class `Device`. Its fields are
  the `message` array (256 `bv8`) and `size` (`size_of_message`). Its methods are
  `Open`, `Read`, `Write` and `Release`, which are `dev_open`, `dev_read`,
  `dev_write` and `dev_release`.
  The pure functions `Window` (what one read delivers) and `Drain` (what a
  chain of reads delivers) carry the read-accumulation lemmas.
  `HelloSession` is a client. It writes "hello", reads it back, reads at the
  end, and has a 256-byte write rejected. It uses only the contracts.
- `Registration` (`registration.dfy`): the class `SimpleCharModule` holds the
  major number and the stack of held resources. A ghost `trace` records every
  acquisition and release. `Replay` checks that each release gives back the most
  recently acquired resource still held. `Init` and `Exit` are `simplechar_init`
  and `simplechar_exit`. Because `Release` may only give back the top of the
  stack, their bodies prove the reverse order of release.

The user/kernel copy primitives become an argument `notCopied`. It is the
number of bytes the host copy fails to transfer, capped at the request, as
`copy_from_user`/`copy_to_user` report it. The kernel's registration calls
become arguments too: the value `register_chrdev` returns, and a `Step`
(`Created` or `Failed(errno)`) for `class_create` and `device_create`.
Errors are returned as negated Linux errno values: `-EINVAL` is -22 and
`-EFAULT` is -14. The read cursor is a `nat` argument, and `Read` returns the new
cursor, because the VFS passes the driver a non-negative position.

## Model

| member | source | states |
|---|---|---|
| CString.Length | sample/simple_char_driver.c:140 | the C string length is at most the buffer length, every byte before it is non-zero, and the byte at it (when inside the buffer) is zero |
| CString.ScanLength | sample/simple_char_driver.c:140 | the `strlen` scan over a buffer that holds a zero byte stops at the first zero byte and equals `Length` of the buffer |
| CString.LengthOfTerminated | sample/simple_char_driver.c:138-140 | once a NUL is stored after the data, the length is the C string length of the data alone, so never more than the data length |
| CString.LengthWithoutZero | sample/simple_char_driver.c:140 | the length equals the data length exactly when the data holds no zero byte |
| MessageDevice.Device.constructor | sample/simple_char_driver.c:19-20 | the buffer starts as 256 zero bytes with length 0, so the stored message is empty |
| MessageDevice.Device.Open | sample/simple_char_driver.c:82-86 | open returns 0 and changes no device state (no modifies clause) |
| MessageDevice.Device.Release | sample/simple_char_driver.c:150-154 | release returns 0 and changes no device state (no modifies clause) |
| MessageDevice.Device.Read | sample/simple_char_driver.c:88-119 | a cursor at or past the end gives 0, no bytes and an unchanged cursor. Otherwise the count is clamped to `min(len, size - offset)`. A good copy delivers `message[offset..offset+n)`, advances the cursor by n, never past the end, and returns n. A failed copy returns -EFAULT, keeps the cursor and delivers only the prefix that arrived. A read never modifies the device. |
| MessageDevice.Device.Write | sample/simple_char_driver.c:121-148 | more than 255 bytes gives -EINVAL with buffer and length unchanged. A good copy puts the data at offset 0 whatever the cursor, a zero at `message[len]`, and leaves bytes past `len` untouched. The length becomes the index of the first zero byte, so `size <= len`, the stored message is `data[..size]`, and the return is `len`. A failed copy returns -EFAULT, keeps the length, and changes nothing at or past `len`. |
| MessageDevice.WriteReadRoundTrip | sample/simple_char_driver.c:99-142 | after a write stores `data` up to its first zero byte, a read from cursor 0 for at least that many bytes returns exactly that prefix, and all of `data` when it holds no zero byte |
| MessageDevice.WriteThenRead | sample/simple_char_driver.c:88-142 | a write of a message without zero bytes, at any cursor, returns its length, and a read from cursor 0 for at least that many bytes then returns exactly that message |
| MessageDevice.WindowBounds | sample/simple_char_driver.c:93-102 | one read delivers at most the requested count, never reaches past the message end, and is empty exactly at end of stream or for a zero request |
| MessageDevice.SplitRead | sample/simple_char_driver.c:99-110 | two successive reads, the second starting at the advanced cursor, deliver the same bytes as one read of the combined size |
| MessageDevice.DrainIsSlice | sample/simple_char_driver.c:93-112 | successive reads of any sizes, chained through the cursor, deliver exactly the message from the starting cursor up to the total requested or the message end |
| MessageDevice.ReadsFromStartRecoverMessage | sample/simple_char_driver.c:93-112 | reads from cursor 0 whose sizes add up to at least the length return exactly the stored message |
| Registration.ReplayAppend | sample/simple_char_driver.c:42-78 | replaying a trace made of two parts is replaying the first part and then the second from where it left the stack |
| Registration.ReplayFrame | sample/simple_char_driver.c:42-78 | a well-nested trace behaves the same on top of resources already held and never releases them |
| Registration.InitAllOrNothing | sample/simple_char_driver.c:42-70 | the load's acquire/release sequence is well nested and ends with all three resources held when every step succeeds, and with none held on every failing path |
| Registration.ExitReleasesAll | sample/simple_char_driver.c:75-78 | unload releases device node, class and major number in that order and leaves nothing held |
| Registration.LoadUnloadCycle | sample/simple_char_driver.c:37-80 | a load, followed by an unload when the load succeeded, leaves exactly the resources held before, so repeated cycles leak nothing |
| Registration.SimpleCharModule.constructor | sample/simple_char_driver.c:18-22 | before loading, nothing is held and nothing has happened |
| Registration.SimpleCharModule.Acquire | sample/simple_char_driver.c:42-61 | a successful registration call pushes its resource and records the acquisition |
| Registration.SimpleCharModule.Release | sample/simple_char_driver.c:54-78 | an unregistration call may release only the most recently acquired resource still held, and pops it |
| Registration.SimpleCharModule.Init | sample/simple_char_driver.c:37-71 | the first failing step's error is returned. A class failure releases the major number. A device failure destroys the class and then releases the major number. The result is 0 exactly when all three are held, and negative exactly when none is held. `majorNumber` holds the value `register_chrdev` returned, also when that value is an error. |
| Registration.SimpleCharModule.Exit | sample/simple_char_driver.c:73-80 | from a fully loaded module, releases device node, class and major number in that order, leaving nothing held |

## Left out

- Logging with `printk` is left out. It is observational only and no result depends on it.
- The kernel registration APIs (`register_chrdev`, `class_create`, `device_create`, `IS_ERR`/`PTR_ERR`, `MKDEV`) and the module macros are left out. Each call becomes an outcome argument; an error pointer is an errno in -4095..-1.
- The copy primitives are not modelled as address-space operations. They become the `notCopied` count.
- MessageDevice.Device.Write: after a failed copy it promises nothing about `message[len - notCopied .. len)`. Those bytes are left in whatever state the failed copy produced; the kernel zero-fills them, but that is not modelled.
- MessageDevice.Device.Read: after a failed copy, `delivered` models the bytes that reached the caller's buffer; the caller's memory is not modelled otherwise.
- Concurrent sessions race on the shared buffer with no lock. The model is sequential: each call runs alone on the device.
- `simplechar_exit` calls both `class_unregister` and `class_destroy` on the class (sample/simple_char_driver.c:76-77), and `class_destroy` unregisters the class itself. The model records one class release there; only the reverse release order is modelled.
- The `short` type of `size_of_message` and the `ssize_t`/`loff_t` widths are not written out. Every value stored in `size_of_message` or `*offset`, or returned by `dev_read`/`dev_write`, is at most 255 and fits in these types, so no wrap-around can occur.
- The device number `MKDEV(majorNumber, 0)` given to `device_create` and `device_destroy` is left out. `majorNumber` is kept as the value `register_chrdev` returned.
