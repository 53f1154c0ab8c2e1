/**
 * context/modalStore.ts: the shared modal store. `onOpen` records which modal is open and
 * the data passed to it; `onClose` clears all three fields.
 */
module Modal {
  import opened Wrappers

  /** `ModalType`. */
  datatype ModalType = CreateCategoryModal | CreateQuizModal {
    function Name(): string {
      match this
      case CreateCategoryModal => "create::category:modal"
      case CreateQuizModal => "create::quiz:modal"
    }
  }

  /** The store's state; `D` is the type of the data handed to the open modal. */
  class ModalStore<D> {
    var kind: Option<ModalType>
    var isOpen: bool
    var data: Option<D>

    /** Open exactly when some modal type is recorded. */
    predicate Valid()
      reads this
    {
      isOpen <==> kind.Some?
    }

    /** The initial state `{ type: null, isOpen: false, data: undefined }`. */
    constructor()
      ensures Valid() && !isOpen && kind.None? && data.None?
    {
      kind := None;
      isOpen := false;
      data := None;
    }

    /** `onOpen({ type, data })`. */
    method OnOpen(t: ModalType, d: Option<D>)
      modifies this
      ensures Valid() && isOpen && kind == Some(t) && data == d
    {
      isOpen := true;
      kind := Some(t);
      data := d;
    }

    /** `onClose()`: from any state, back to the initial one. */
    method OnClose()
      modifies this
      ensures Valid() && !isOpen && kind.None? && data.None?
    {
      isOpen := false;
      kind := None;
      data := None;
    }
  }

  /** Closing twice leaves the store as closing once does, and opening after a close forgets the earlier data. */
  method CloseIsIdempotent<D>(s: ModalStore<D>, t: ModalType, d: Option<D>) returns (open: bool, stale: bool)
    modifies s
    ensures !open && !stale
    ensures s.Valid() && !s.isOpen && s.kind.None? && s.data.None?
  {
    s.OnOpen(t, d);
    s.OnClose();
    s.OnClose();
    open := s.isOpen;
    stale := s.data.Some?;
  }

  /** The two modal names differ, so a store opened for one modal is never taken for the other. */
  lemma NamesDistinct()
    ensures CreateCategoryModal.Name() != CreateQuizModal.Name()
  {
    assert CreateCategoryModal.Name()[8] != CreateQuizModal.Name()[8];
  }
}
