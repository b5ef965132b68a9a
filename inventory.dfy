/**
 * The inventory program's generic logger: an in-memory list of entries, saved to and restored
 * from a file. The file system is a map from path to contents, the JSON codec two function
 * parameters, and an exception during reading or writing a boolean parameter.
 */
module InventorySys {
  import opened DateTimes

  /** `record InventoryItem(int Id, string Name, int Quantity, DateTime DateAdded)`. */
  datatype InventoryItem = InventoryItem(id: int, name: string, quantity: int, dateAdded: DateTime)

  /** What `JsonSerializer.Deserialize<List<T>>` yields: an exception, `null`, or a list. */
  datatype Decoded<T> = Malformed | Null | Entries(entries: seq<T>)

  /** The files that exist, by path, with their text. */
  type Disk = map<string, string>

  /** `InventoryLogger<T>`: the list `_log` and the path of its file. */
  class InventoryLogger<T> {
    var log: seq<T>
    const filePath: string

    constructor (filePath: string)
      ensures log == [] && this.filePath == filePath
    {
      log := [];
      this.filePath := filePath;
    }

    /** Appends `item` to the log. */
    method Add(item: T)
      modifies this
      ensures log == old(log) + [item]
    {
      log := log + [item];
    }

    /** A copy of the log: the same entries in the same order, sharing nothing with the log. */
    function GetAll(): (copy: seq<T>)
      reads this
      ensures copy == log
    {
      log
    }

    /**
     * Writes `encode(log)` to the file. When serializing or writing throws (`fails`), the error
     * is only printed and the disk keeps its old contents. The log is never changed: the method
     * may not modify the logger.
     */
    method SaveToFile(disk: Disk, encode: seq<T> -> string, fails: bool) returns (after: Disk)
      ensures fails ==> after == disk
      ensures !fails ==> after.Keys == disk.Keys + {filePath} && after[filePath] == encode(log)
      ensures forall path :: path in disk && path != filePath ==> path in after && after[path] == disk[path]
    {
      if fails {
        return disk;
      }
      after := disk[filePath := encode(log)];
    }

    /**
     * Replaces the log with the decoded file, but only when the file exists, reading it does not
     * throw (`fails`), and the text decodes to a list rather than `null`; otherwise the log is
     * left as it was. The decoded list replaces the log; it is not merged into it.
     */
    method LoadFromFile(disk: Disk, decode: string -> Decoded<T>, fails: bool)
      modifies this
      ensures filePath !in disk ==> log == old(log)
      ensures filePath in disk && fails ==> log == old(log)
      ensures filePath in disk && !fails && !decode(disk[filePath]).Entries? ==> log == old(log)
      ensures filePath in disk && !fails && decode(disk[filePath]).Entries? ==>
                log == decode(disk[filePath]).entries
    {
      if filePath !in disk {
        return;
      }
      if fails {
        return;
      }
      var items := decode(disk[filePath]);
      if items.Entries? {
        log := items.entries;
      }
    }

    /** Empties the log. */
    method ClearMemory()
      modifies this
      ensures log == []
    {
      log := [];
    }
  }

  /**
   * The program's save, clear and load sequence, for any log: with a codec whose decoding undoes
   * its encoding, the log comes back with the same entries in the same order.
   */
  method SaveClearLoad<T>(logger: InventoryLogger<T>, disk: Disk, encode: seq<T> -> string,
                          decode: string -> Decoded<T>)
    returns (after: Disk)
    requires forall entries :: decode(encode(entries)) == Entries(entries)
    modifies logger
    ensures logger.log == old(logger.log)
    ensures after == disk[logger.filePath := encode(old(logger.log))]
  {
    after := logger.SaveToFile(disk, encode, false);
    logger.ClearMemory();
    logger.LoadFromFile(after, decode, false);
  }
}
